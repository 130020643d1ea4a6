/** The sliding window of a rendition's latest segments: `src/package/segment_index.rs`. */
module SegmentIndexes {
  import opened Bytes
  import opened Playlist

  datatype Entry = Entry(sequence: nat, ticks: int, shown: string, storagePath: string, date: string)

  /** `window` is None for the unlimited window of recorded uploads. */
  datatype Window = Window(entries: seq<Entry>, next: nat)

  function PlaylistSegmentOf(e: Entry): PlaylistSegment {
    PlaylistSegment(e.sequence, e.ticks, e.shown, SegmentFilename(e.sequence), Some(e.date))
  }

  function PlaylistSegmentsOf(entries: seq<Entry>): seq<PlaylistSegment> {
    if entries == [] then [] else [PlaylistSegmentOf(entries[0])] + PlaylistSegmentsOf(entries[1..])
  }

  /** What a caller supplies of a segment; the index assigns the sequence number. */
  datatype Added = Added(ticks: int, shown: string, storagePath: string, date: string)

  function EntryOf(sequence: nat, a: Added): Entry {
    Entry(sequence, a.ticks, a.shown, a.storagePath, a.date)
  }

  predicate Overflows(window: Option<nat>, count: nat) {
    window.Some? && count > window.value
  }

  function AddedTo(w: Window, window: Option<nat>, a: Added): Window {
    var entries := w.entries + [EntryOf(w.next, a)];
    Window(if Overflows(window, |entries|) then entries[1..] else entries, w.next + 1)
  }

  class SegmentIndex {
    const window: Option<nat>
    var entries: seq<Entry>
    var nextSequence: nat
    var totalProduced: nat

    function View(): Window
      reads this
    {
      Window(entries, nextSequence)
    }

    constructor (window: Option<nat>)
      ensures this.window == window && View() == Window([], 0) && totalProduced == 0
    {
      this.window := window;
      entries, nextSequence, totalProduced := [], 0, 0;
    }

    /** Appends a segment; the segment pushed out of the window, if any, is returned. */
    method AddSegment(a: Added) returns (evicted: Option<Entry>)
      modifies this
      ensures View() == AddedTo(old(View()), window, a) && totalProduced == old(totalProduced) + 1
      ensures evicted == if Overflows(window, |old(entries)| + 1)
                         then Some((old(entries) + [EntryOf(old(nextSequence), a)])[0]) else None
    {
      entries := entries + [EntryOf(nextSequence, a)];
      nextSequence := nextSequence + 1;
      totalProduced := totalProduced + 1;
      if Overflows(window, |entries|) {
        evicted := Some(entries[0]);
        entries := entries[1..];
      } else {
        evicted := None;
      }
    }

    method GeneratePlaylist(hlsVersion: nat, isVod: bool, isFinished: bool) returns (playlist: string)
      ensures playlist == Unlines(PlaylistLines(PlaylistSegmentsOf(entries), hlsVersion, isVod, isFinished))
    {
      playlist := GenerateMediaPlaylist(PlaylistSegmentsOf(entries), hlsVersion, isVod, isFinished);
    }
  }

  function Run(window: Option<nat>, added: seq<Added>): Window {
    if added == [] then Window([], 0)
    else AddedTo(Run(window, added[..|added| - 1]), window, added[|added| - 1])
  }

  /** How many of `n` segments have left the window. */
  function Gone(window: Option<nat>, n: nat): nat {
    if window.Some? && n > window.value then n - window.value else 0
  }

  /** After any number of additions the window holds exactly the latest ones, as many as fit, numbered without a gap
      up to the last, and each as it was added. */
  lemma {:induction false} WindowIsLatest(window: Option<nat>, added: seq<Added>)
    ensures var w := Run(window, added);
      && w.next == |added|
      && |w.entries| == |added| - Gone(window, |added|)
      && forall i :: 0 <= i < |w.entries| ==>
           w.entries[i] == EntryOf(Gone(window, |added|) + i, added[Gone(window, |added|) + i])
  {
    if added != [] {
      WindowIsLatest(window, added[..|added| - 1]);
    }
  }

  lemma {:induction false} PlaylistSegmentsAt(entries: seq<Entry>, i: nat)
    requires i < |entries|
    ensures |PlaylistSegmentsOf(entries)| == |entries|
    ensures PlaylistSegmentsOf(entries)[i] == PlaylistSegmentOf(entries[i])
  {
    if entries != [] {
      if |entries| > 1 {
        PlaylistSegmentsAt(entries[1..], if i > 0 then i - 1 else 0);
      }
    }
  }

  lemma {:induction false} PlaylistSegmentsCount(entries: seq<Entry>)
    ensures |PlaylistSegmentsOf(entries)| == |entries|
  {
    if entries != [] {
      PlaylistSegmentsAt(entries, 0);
    }
  }

  /** The media sequence number that a playlist of the window announces is the number of segments that have left the
      window, as long as the window has room for a segment; a window without room always announces 0. */
  lemma {:induction false} AnnouncedSequence(window: Option<nat>, added: seq<Added>)
    ensures MediaSequence(PlaylistSegmentsOf(Run(window, added).entries)) ==
      if window == Some(0) then 0 else Gone(window, |added|)
  {
    WindowIsLatest(window, added);
    var entries := Run(window, added).entries;
    PlaylistSegmentsCount(entries);
    if entries != [] {
      PlaylistSegmentsAt(entries, 0);
    }
  }
}
