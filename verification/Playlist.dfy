/** Names of stored objects and the text of media playlists: `src/package/manifest.rs`. Times are 90 kHz ticks; the
    printed form of a duration and of a date is any text without a line break. */
module Playlist {
  import opened Bytes

  // ----- Numbers as text -----

  function DigitOf(d: nat): (c: char)
    requires d < 10
    ensures c as int == 48 + d
  {
    (48 + d) as char
  }

  /** The decimal form of `n`, filled with zeros on the left up to `width` digits. */
  function Padded(n: nat, width: nat): string
    decreases n + width
  {
    if n < 10 && width <= 1 then [DigitOf(n)]
    else Padded(n / 10, if width > 0 then width - 1 else 0) + [DigitOf(n % 10)]
  }

  function ValueOf(s: string): int {
    if s == "" then 0 else 10 * ValueOf(s[..|s| - 1]) + (s[|s| - 1] as int - 48)
  }

  predicate AllDigits(s: string) {
    forall i :: 0 <= i < |s| ==> 48 <= s[i] as int < 58
  }

  lemma {:induction false} PaddedReadsBack(n: nat, width: nat)
    ensures ValueOf(Padded(n, width)) == n
    ensures AllDigits(Padded(n, width)) && |Padded(n, width)| >= width && |Padded(n, width)| >= 1
    decreases n + width
  {
    if !(n < 10 && width <= 1) {
      var high := Padded(n / 10, if width > 0 then width - 1 else 0);
      PaddedReadsBack(n / 10, if width > 0 then width - 1 else 0);
      assert (high + [DigitOf(n % 10)])[..|high|] == high;
    }
  }

  // ----- Paths -----

  const SEGMENT_SUFFIX := ".m4s"

  function SegmentFilename(sequence: nat): string {
    Padded(sequence, 6) + SEGMENT_SUFFIX
  }

  function SegmentPath(stream: string, rendition: string, sequence: nat): string {
    stream + "/" + rendition + "/" + SegmentFilename(sequence)
  }

  function InitSegmentPath(stream: string, rendition: string): string {
    stream + "/" + rendition + "/" + "init.mp4"
  }

  function MediaPlaylistPath(stream: string, rendition: string): string {
    stream + "/" + rendition + "/" + "media.m3u8"
  }

  function MasterPlaylistPath(stream: string): string {
    stream + "/" + "master.m3u8"
  }

  lemma {:induction false} FilenamesDiffer(a: nat, b: nat)
    requires SegmentFilename(a) == SegmentFilename(b)
    ensures a == b
  {
    PaddedReadsBack(a, 6);
    PaddedReadsBack(b, 6);
    var p, q := Padded(a, 6), Padded(b, 6);
    assert (p + SEGMENT_SUFFIX)[..|p|] == p && (q + SEGMENT_SUFFIX)[..|q|] == q;
  }

  // ----- Media playlists -----

  datatype PlaylistSegment =
    PlaylistSegment(sequence: nat, ticks: int, shown: string, filename: string, date: Option<string>)

  function Unlines(lines: seq<string>): string {
    if lines == [] then "" else lines[0] + "\n" + Unlines(lines[1..])
  }

  /** The longest duration, or 0. */
  function Longest(segments: seq<PlaylistSegment>): int {
    if segments == [] then 0
    else
      var rest := Longest(segments[1..]);
      if segments[0].ticks > rest then segments[0].ticks else rest
  }

  function CeilSeconds(ticks: int): int {
    (ticks + 89999) / 90000
  }

  /** Whole seconds, rounded up, saturated to 32 bits, and at least 1. */
  function TargetDuration(segments: seq<PlaylistSegment>): nat {
    var seconds := CeilSeconds(Longest(segments));
    if seconds < 1 then 1 else if seconds > 0xFFFF_FFFF then 0xFFFF_FFFF else seconds
  }

  function MediaSequence(segments: seq<PlaylistSegment>): nat {
    if segments == [] then 0 else segments[0].sequence
  }

  function TypeLines(isVod: bool): seq<string> {
    if isVod then ["#EXT-X-PLAYLIST-TYPE:VOD"] else []
  }

  function Header(segments: seq<PlaylistSegment>, hlsVersion: nat, isVod: bool): seq<string> {
    ["#EXTM3U",
     "#EXT-X-VERSION:" + Padded(hlsVersion, 1),
     "#EXT-X-TARGETDURATION:" + Padded(TargetDuration(segments), 1)]
    + (TypeLines(isVod)
       + ["#EXT-X-MEDIA-SEQUENCE:" + Padded(MediaSequence(segments), 1),
          "#EXT-X-MAP:URI=\"init.mp4\"",
          ""])
  }

  function DateLines(date: Option<string>): seq<string> {
    if date.Some? then ["#EXT-X-PROGRAM-DATE-TIME:" + date.value] else []
  }

  function SegmentLines(s: PlaylistSegment): seq<string> {
    DateLines(s.date) + ["#EXTINF:" + s.shown + ",", s.filename]
  }

  function BodyLines(segments: seq<PlaylistSegment>): seq<string> {
    if segments == [] then [] else SegmentLines(segments[0]) + BodyLines(segments[1..])
  }

  function EndLines(isFinished: bool): seq<string> {
    if isFinished then ["#EXT-X-ENDLIST"] else []
  }

  function PlaylistLines(segments: seq<PlaylistSegment>, hlsVersion: nat, isVod: bool, isFinished: bool): seq<string> {
    Header(segments, hlsVersion, isVod) + (BodyLines(segments) + EndLines(isFinished))
  }

  lemma {:induction false} UnlinesAppend(a: seq<string>, b: seq<string>)
    ensures Unlines(a + b) == Unlines(a) + Unlines(b)
  {
    if a == [] {
      assert a + b == b;
    } else {
      UnlinesAppend(a[1..], b);
      assert (a + b)[1..] == a[1..] + b;
    }
  }

  lemma {:induction false} UnlinesOne(line: string)
    ensures Unlines([line]) == line + "\n"
  {
  }

  lemma {:induction false} BodyAppend(segments: seq<PlaylistSegment>, i: nat)
    requires i < |segments|
    ensures Unlines(BodyLines(segments[i..])) ==
      Unlines(SegmentLines(segments[i])) + Unlines(BodyLines(segments[i + 1..]))
  {
    assert segments[i..][0] == segments[i] && segments[i..][1..] == segments[i + 1..];
    UnlinesAppend(SegmentLines(segments[i]), BodyLines(segments[i + 1..]));
  }

  method PushLine(playlist: string, line: string) returns (r: string)
    ensures r == playlist + Unlines([line])
  {
    UnlinesOne(line);
    r := playlist + (line + "\n");
  }

  method WriteHeader(segments: seq<PlaylistSegment>, hlsVersion: nat, isVod: bool) returns (playlist: string)
    ensures playlist == Unlines(Header(segments, hlsVersion, isVod))
  {
    var version := "#EXT-X-VERSION:" + Padded(hlsVersion, 1);
    var target := "#EXT-X-TARGETDURATION:" + Padded(TargetDuration(segments), 1);
    var sequence := "#EXT-X-MEDIA-SEQUENCE:" + Padded(MediaSequence(segments), 1);
    var first := "#EXTM3U";
    var initMap := "#EXT-X-MAP:URI=\"init.mp4\"";
    ghost var top, rest := [first, version, target], [sequence, initMap, ""];
    playlist := first + "\n";
    playlist := playlist + (version + "\n");
    playlist := playlist + (target + "\n");
    HeaderText(first, version, target, playlist);
    if isVod {
      playlist := PushLine(playlist, "#EXT-X-PLAYLIST-TYPE:VOD");
    }
    assert playlist == Unlines(top) + Unlines(TypeLines(isVod));
    ghost var before := playlist;
    playlist := playlist + (sequence + "\n");
    playlist := playlist + (initMap + "\n");
    playlist := playlist + "\n";
    HeaderTail(sequence, initMap, before, playlist);
    UnlinesAppend(TypeLines(isVod), rest);
    UnlinesAppend(top, TypeLines(isVod) + rest);
    Assoc(Unlines(top), Unlines(TypeLines(isVod)), Unlines(rest));
  }

  lemma {:induction false} Assoc(a: string, b: string, c: string)
    ensures (a + b) + c == a + (b + c)
  {
  }

  lemma {:induction false} HeaderText(a: string, b: string, c: string, text: string)
    requires text == ((a + "\n") + (b + "\n")) + (c + "\n")
    ensures text == Unlines([a, b, c])
  {
    UnlinesOne(c);
    assert [a, b, c][1..] == [b, c] && [b, c][1..] == [c];
  }

  lemma {:induction false} HeaderTail(a: string, b: string, before: string, text: string)
    requires text == ((before + (a + "\n")) + (b + "\n")) + "\n"
    ensures text == before + Unlines([a, b, ""])
  {
    UnlinesOne("");
    assert [a, b, ""][1..] == [b, ""] && [b, ""][1..] == [""];
  }

  /** Generates the media playlist of a window of segments. */
  method GenerateMediaPlaylist(segments: seq<PlaylistSegment>, hlsVersion: nat, isVod: bool, isFinished: bool)
    returns (playlist: string)
    ensures playlist == Unlines(PlaylistLines(segments, hlsVersion, isVod, isFinished))
  {
    ghost var head := Header(segments, hlsVersion, isVod);
    ghost var body := BodyLines(segments);
    playlist := WriteHeader(segments, hlsVersion, isVod);
    assert segments[0..] == segments;
    for i := 0 to |segments|
      invariant playlist + Unlines(BodyLines(segments[i..])) == Unlines(head) + Unlines(body)
    {
      BodyAppend(segments, i);
      playlist := WriteSegment(playlist, segments[i], Unlines(BodyLines(segments[i + 1..])));
    }
    assert playlist == Unlines(head) + Unlines(body);
    if isFinished {
      playlist := PushLine(playlist, "#EXT-X-ENDLIST");
    }
    Assoc(Unlines(head), Unlines(body), Unlines(EndLines(isFinished)));
    UnlinesAppend(body, EndLines(isFinished));
    UnlinesAppend(head, body + EndLines(isFinished));
  }

  /** Prints the lines of one segment; `rest` is any text that follows. */
  method WriteSegment(playlist: string, s: PlaylistSegment, ghost rest: string) returns (r: string)
    ensures r == playlist + Unlines(SegmentLines(s))
    ensures r + rest == playlist + (Unlines(SegmentLines(s)) + rest)
  {
    r := playlist;
    if s.date.Some? {
      r := PushLine(r, "#EXT-X-PROGRAM-DATE-TIME:" + s.date.value);
    }
    var info := "#EXTINF:" + s.shown + ",";
    ghost var before := r;
    r := PushLine(r, info);
    r := PushLine(r, s.filename);
    UnlinesAppend([info], [s.filename]);
    assert [info] + [s.filename] == [info, s.filename];
    Assoc(before, Unlines([info]), Unlines([s.filename]));
    UnlinesAppend(DateLines(s.date), [info, s.filename]);
    Assoc(playlist, Unlines(DateLines(s.date)), Unlines([info, s.filename]));
    Assoc(playlist, Unlines(SegmentLines(s)), rest);
  }

  // ----- The target duration -----

  lemma {:induction false} LongestBounds(segments: seq<PlaylistSegment>)
    ensures Longest(segments) >= 0
    ensures forall i :: 0 <= i < |segments| ==> segments[i].ticks <= Longest(segments)
    ensures Longest(segments) > 0 ==> exists i :: 0 <= i < |segments| && segments[i].ticks == Longest(segments)
  {
    if segments != [] {
      var rest := segments[1..];
      LongestBounds(rest);
      forall i | 0 <= i < |segments|
        ensures segments[i].ticks <= Longest(segments)
      {
        if i > 0 {
          assert segments[i] == rest[i - 1];
        }
      }
      if Longest(segments) > 0 && segments[0].ticks <= Longest(rest) {
        var j :| 0 <= j < |rest| && rest[j].ticks == Longest(rest);
        assert segments[j + 1] == rest[j];
      }
    }
  }

  /** The target duration is the smallest positive whole number of seconds that no segment exceeds, for durations that
      fit 32 bits of seconds. */
  lemma {:induction false} TargetDurationLeast(segments: seq<PlaylistSegment>, bound: int)
    requires forall i :: 0 <= i < |segments| ==> segments[i].ticks <= 0xFFFF_FFFF * 90000
    ensures bound >= TargetDuration(segments) <==>
      bound >= 1 && forall i :: 0 <= i < |segments| ==> segments[i].ticks <= bound * 90000
  {
    LongestBounds(segments);
  }
}
