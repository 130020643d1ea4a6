/** The retention task for stored media: `src/storage/cleanup.rs`, with the reading of playlist text that it does. */
module Cleanup {
  import opened Bytes
  import opened Playlist
  import opened SegmentIndexes

  // ----- Text -----

  /** Unicode white space. */
  predicate IsSpace(c: char) {
    var n := c as int;
    || 9 <= n <= 13 || n == 0x20 || n == 0x85 || n == 0xA0 || n == 0x1680 || 0x2000 <= n <= 0x200A
    || n == 0x2028 || n == 0x2029 || n == 0x202F || n == 0x205F || n == 0x3000
  }

  function TrimStart(s: string): string {
    if s != "" && IsSpace(s[0]) then TrimStart(s[1..]) else s
  }

  function TrimEnd(s: string): string {
    if s != "" && IsSpace(s[|s| - 1]) then TrimEnd(s[..|s| - 1]) else s
  }

  function Trim(s: string): string {
    TrimEnd(TrimStart(s))
  }

  function StripReturn(line: string): string {
    if line != "" && line[|line| - 1] == '\r' then line[..|line| - 1] else line
  }

  function Find(s: string, c: char): (k: nat)
    ensures k <= |s| && (k < |s| ==> s[k] == c) && forall i :: 0 <= i < k ==> s[i] != c
  {
    if s == "" || s[0] == c then 0 else 1 + Find(s[1..], c)
  }

  /** The lines of a text; a line break ends a line, and a carriage return before it belongs to it. */
  function Lines(text: string): seq<string>
    decreases |text|
  {
    var k := Find(text, '\n');
    if k < |text| then [StripReturn(text[..k])] + Lines(text[k + 1..])
    else if text == "" then []
    else [text]
  }

  predicate EndsWith(s: string, suffix: string) {
    |s| >= |suffix| && s[|s| - |suffix|..] == suffix
  }

  predicate Occurs(pattern: string, s: string) {
    pattern <= s || (s != "" && Occurs(pattern, s[1..]))
  }

  /** What comes before the last slash of a key; nothing if there is none. */
  function Parent(key: string): string {
    if key == "" then ""
    else if key[|key| - 1] == '/' then key[..|key| - 1]
    else Parent(key[..|key| - 1])
  }

  // ----- Reading a playlist -----

  predicate NamesSegment(line: string) {
    line != "" && line[0] != '#' && EndsWith(line, SEGMENT_SUFFIX)
  }

  /** The trimmed lines that name a segment, in order. */
  function SegmentNames(lines: seq<string>): seq<string> {
    if lines == [] then []
    else (if NamesSegment(Trim(lines[0])) then [Trim(lines[0])] else []) + SegmentNames(lines[1..])
  }

  function FullKey(parent: string, name: string): string {
    if '/' in name || parent == "" then name else parent + "/" + name
  }

  function FullKeys(parent: string, names: seq<string>): set<string> {
    if names == [] then {} else {FullKey(parent, names[0])} + FullKeys(parent, names[1..])
  }

  function ReferencedBy(key: string, body: string): set<string> {
    FullKeys(Parent(key), SegmentNames(Lines(body)))
  }

  lemma {:induction false} FullKeysCons(parent: string, name: string, rest: seq<string>)
    ensures FullKeys(parent, [name] + rest) == {FullKey(parent, name)} + FullKeys(parent, rest)
  {
    assert ([name] + rest)[1..] == rest;
  }

  lemma {:induction false} SegmentNamesAt(lines: seq<string>, i: nat)
    requires i < |lines|
    ensures SegmentNames(lines[i..]) ==
      (if NamesSegment(Trim(lines[i])) then [Trim(lines[i])] else []) + SegmentNames(lines[i + 1..])
  {
    assert lines[i..][0] == lines[i] && lines[i..][1..] == lines[i + 1..];
  }

  /** Adds the segments that a playlist names to the referenced ones. */
  method AddReferenced(key: string, body: string, referenced: set<string>) returns (r: set<string>)
    ensures r == referenced + ReferencedBy(key, body)
  {
    r := referenced;
    var parent := Parent(key);
    var lines := Lines(body);
    ghost var goal := ReferencedBy(key, body);
    assert lines[0..] == lines;
    for i := 0 to |lines|
      invariant r + FullKeys(parent, SegmentNames(lines[i..])) == referenced + goal
    {
      var line := Trim(lines[i]);
      SegmentNamesAt(lines, i);
      if NamesSegment(line) {
        FullKeysCons(parent, line, SegmentNames(lines[i + 1..]));
        r := r + {FullKey(parent, line)};
      } else {
        assert [] + SegmentNames(lines[i + 1..]) == SegmentNames(lines[i + 1..]);
      }
    }
  }

  // ----- The round trip with the printer -----

  predicate SingleLine(line: string) {
    forall i :: 0 <= i < |line| ==> line[i] != '\n' && line[i] != '\r'
  }

  lemma {:induction false} FindBreak(line: string, rest: string)
    requires SingleLine(line)
    ensures Find(line + "\n" + rest, '\n') == |line|
  {
    var text := line + "\n" + rest;
    assert text[|line|] == '\n' && forall i :: 0 <= i < |line| ==> text[i] == line[i];
  }

  lemma {:induction false} LinesInvertUnlines(lines: seq<string>)
    requires forall i :: 0 <= i < |lines| ==> SingleLine(lines[i])
    ensures Lines(Unlines(lines)) == lines
  {
    if lines != [] {
      var line, rest := lines[0], Unlines(lines[1..]);
      LinesInvertUnlines(lines[1..]);
      FindBreak(line, rest);
      var text := line + "\n" + rest;
      assert text[..|line|] == line && text[|line| + 1..] == rest;
      assert StripReturn(line) == line;
    }
  }

  lemma {:induction false} SegmentNamesCons(line: string, rest: seq<string>)
    ensures SegmentNames([line] + rest) ==
      (if NamesSegment(Trim(line)) then [Trim(line)] else []) + SegmentNames(rest)
  {
    assert ([line] + rest)[1..] == rest;
  }

  lemma {:induction false} SegmentNamesAppend(a: seq<string>, b: seq<string>)
    ensures SegmentNames(a + b) == SegmentNames(a) + SegmentNames(b)
  {
    if a == [] {
      assert a + b == b;
    } else {
      var own := if NamesSegment(Trim(a[0])) then [Trim(a[0])] else [];
      assert SegmentNames(a + b) == own + SegmentNames(a[1..] + b) by {
        SegmentNamesCons(a[0], a[1..] + b);
        assert [a[0]] + (a[1..] + b) == a + b;
      }
      SegmentNamesAppend(a[1..], b);
      assert own + (SegmentNames(a[1..]) + SegmentNames(b)) == own + SegmentNames(a[1..]) + SegmentNames(b);
    }
  }

  lemma {:induction false} TrimEndKeepsStart(s: string)
    requires s != "" && !IsSpace(s[0])
    ensures TrimEnd(s) != "" && TrimEnd(s)[0] == s[0]
  {
    if IsSpace(s[|s| - 1]) {
      TrimEndKeepsStart(s[..|s| - 1]);
    }
  }

  /** A tag, a comment or a blank line. */
  predicate Silent(line: string) {
    SingleLine(line) && (line == "" || line[0] == '#')
  }

  lemma {:induction false} SilentNamesNothing(line: string)
    requires Silent(line)
    ensures !NamesSegment(Trim(line))
  {
    if line != "" {
      TrimEndKeepsStart(line);
    }
  }

  lemma {:induction false} SilentLines(lines: seq<string>)
    requires forall i :: 0 <= i < |lines| ==> Silent(lines[i])
    ensures SegmentNames(lines) == []
  {
    if lines != [] {
      SilentNamesNothing(lines[0]);
      SilentLines(lines[1..]);
    }
  }

  lemma {:induction false} TagSilent(tag: string, text: string)
    requires Silent(tag) && tag != "" && SingleLine(text)
    ensures Silent(tag + text)
  {
  }

  lemma {:induction false} NumberLine(n: nat)
    ensures SingleLine(Padded(n, 1))
  {
    PaddedReadsBack(n, 1);
  }

  lemma {:induction false} HeaderSilent(segments: seq<PlaylistSegment>, hlsVersion: nat, isVod: bool)
    ensures var lines := Header(segments, hlsVersion, isVod); forall i :: 0 <= i < |lines| ==> Silent(lines[i])
  {
    NumberLine(hlsVersion);
    NumberLine(TargetDuration(segments));
    NumberLine(MediaSequence(segments));
    var version := "#EXT-X-VERSION:" + Padded(hlsVersion, 1);
    var target := "#EXT-X-TARGETDURATION:" + Padded(TargetDuration(segments), 1);
    var sequence := "#EXT-X-MEDIA-SEQUENCE:" + Padded(MediaSequence(segments), 1);
    assert Silent(version) by {
      TagSilent("#EXT-X-VERSION:", Padded(hlsVersion, 1));
    }
    assert Silent(target) by {
      TagSilent("#EXT-X-TARGETDURATION:", Padded(TargetDuration(segments), 1));
    }
    assert Silent(sequence) by {
      TagSilent("#EXT-X-MEDIA-SEQUENCE:", Padded(MediaSequence(segments), 1));
    }
    var first, initMap := "#EXTM3U", "#EXT-X-MAP:URI=\"init.mp4\"";
    assert Silent(first) && Silent(initMap);
    AllSilent(first, version, target, TypeLines(isVod), sequence, initMap, "");
  }

  lemma {:induction false} AllSilent(
    a: string, b: string, c: string, lines: seq<string>, d: string, e: string, f: string)
    requires Silent(a) && Silent(b) && Silent(c) && Silent(d) && Silent(e) && Silent(f)
    requires forall i :: 0 <= i < |lines| ==> Silent(lines[i])
    ensures var all := [a, b, c] + (lines + [d, e, f]); forall i :: 0 <= i < |all| ==> Silent(all[i])
  {
  }

  /** The texts of a segment have no line break, and its file name is the one of its sequence number. */
  predicate Printable(s: PlaylistSegment) {
    && SingleLine(s.shown) && (s.date.Some? ==> SingleLine(s.date.value))
    && s.filename == SegmentFilename(s.sequence)
  }

  ghost predicate AllPrintable(segments: seq<PlaylistSegment>) {
    forall i :: 0 <= i < |segments| ==> Printable(segments[i])
  }

  lemma {:induction false} FilenameNames(n: nat)
    ensures var f := SegmentFilename(n);
      SingleLine(f) && Trim(f) == f && NamesSegment(f) && '/' !in f
  {
    PaddedReadsBack(n, 6);
    var p := Padded(n, 6);
    var f := p + SEGMENT_SUFFIX;
    assert f[0] == p[0] && f[|f| - 1] == 's' && f[|p|..] == SEGMENT_SUFFIX;
    assert forall i :: 0 <= i < |p| ==> f[i] == p[i];
  }

  lemma {:induction false} InfoSilent(shown: string)
    requires SingleLine(shown)
    ensures Silent("#EXTINF:" + shown + ",")
  {
    TagSilent("#EXTINF:", shown);
    TagSilent("#EXTINF:" + shown, ",");
  }

  lemma {:induction false} DateSilent(date: Option<string>)
    requires date.Some? ==> SingleLine(date.value)
    ensures SegmentNames(DateLines(date)) == []
    ensures forall i :: 0 <= i < |DateLines(date)| ==> SingleLine(DateLines(date)[i])
  {
    if date.Some? {
      TagSilent("#EXT-X-PROGRAM-DATE-TIME:", date.value);
      SilentLines(DateLines(date));
    }
  }

  lemma {:induction false} TwoLines(info: string, f: string)
    requires Silent(info) && Trim(f) == f && NamesSegment(f)
    ensures SegmentNames([info, f]) == [f]
  {
    SilentNamesNothing(info);
    assert [info, f][1..] == [f] && SegmentNames([f]) == [f] + SegmentNames([]);
  }

  lemma {:induction false} SegmentLinesName(s: PlaylistSegment)
    requires Printable(s)
    ensures SegmentNames(SegmentLines(s)) == [s.filename]
    ensures forall i :: 0 <= i < |SegmentLines(s)| ==> SingleLine(SegmentLines(s)[i])
  {
    var info := "#EXTINF:" + s.shown + ",";
    InfoSilent(s.shown);
    FilenameNames(s.sequence);
    DateSilent(s.date);
    TwoLines(info, s.filename);
    SegmentNamesAppend(DateLines(s.date), [info, s.filename]);
  }

  function Filenames(segments: seq<PlaylistSegment>): seq<string> {
    if segments == [] then [] else [segments[0].filename] + Filenames(segments[1..])
  }

  lemma {:induction false} BodyNames(segments: seq<PlaylistSegment>)
    requires AllPrintable(segments)
    ensures SegmentNames(BodyLines(segments)) == Filenames(segments)
    ensures forall i :: 0 <= i < |BodyLines(segments)| ==> SingleLine(BodyLines(segments)[i])
  {
    if segments != [] {
      SegmentLinesName(segments[0]);
      BodyNames(segments[1..]);
      SegmentNamesAppend(SegmentLines(segments[0]), BodyLines(segments[1..]));
    }
  }

  /** Reading back a generated playlist gives the file names of its window, all of them, in order, and nothing else. */
  lemma {:induction false} ScanInvertsPlaylist(
    segments: seq<PlaylistSegment>, hlsVersion: nat, isVod: bool, isFinished: bool)
    requires AllPrintable(segments)
    ensures SegmentNames(Lines(Unlines(PlaylistLines(segments, hlsVersion, isVod, isFinished)))) == Filenames(segments)
  {
    var head, body, end := Header(segments, hlsVersion, isVod), BodyLines(segments), EndLines(isFinished);
    HeaderSilent(segments, hlsVersion, isVod);
    BodyNames(segments);
    EndSilent(isFinished);
    ScanParts(head, body, end);
  }

  lemma {:induction false} EndSilent(isFinished: bool)
    ensures forall i :: 0 <= i < |EndLines(isFinished)| ==> Silent(EndLines(isFinished)[i])
  {
  }

  lemma {:induction false} ScanParts(head: seq<string>, body: seq<string>, end: seq<string>)
    requires forall i :: 0 <= i < |head| ==> Silent(head[i])
    requires forall i :: 0 <= i < |body| ==> SingleLine(body[i])
    requires forall i :: 0 <= i < |end| ==> Silent(end[i])
    ensures SegmentNames(Lines(Unlines(head + (body + end)))) == SegmentNames(body)
  {
    LinesInvertUnlines(head + (body + end));
    SegmentNamesAppend(head, body + end);
    SegmentNamesAppend(body, end);
    SilentLines(head);
    SilentLines(end);
  }

  // ----- Keys -----

  lemma {:induction false} ParentOf(dir: string, name: string)
    requires '/' !in name
    ensures Parent(dir + "/" + name) == dir
  {
    var key := dir + "/" + name;
    if name == "" {
      assert key[..|key| - 1] == dir;
    } else {
      var n := |name| - 1;
      assert key[|key| - 1] == name[n] && key[..|key| - 1] == dir + "/" + name[..n];
      ParentOf(dir, name[..n]);
    }
  }

  lemma {:induction false} FullKeysAre(parent: string, segments: seq<PlaylistSegment>, key: string)
    requires AllPrintable(segments) && parent != ""
    ensures key in FullKeys(parent, Filenames(segments)) <==>
      exists i :: 0 <= i < |segments| && key == parent + "/" + SegmentFilename(segments[i].sequence)
  {
    if segments != [] {
      var rest := segments[1..];
      FullKeysAre(parent, rest, key);
      FilenameNames(segments[0].sequence);
      FullKeysCons(parent, segments[0].filename, Filenames(rest));
      if i :| 0 <= i < |rest| && key == parent + "/" + SegmentFilename(rest[i].sequence) {
        assert segments[i + 1] == rest[i];
      }
      if i :| 0 <= i < |segments| && key == parent + "/" + SegmentFilename(segments[i].sequence) {
        if i > 0 {
          assert rest[i - 1] == segments[i];
        }
      }
    }
  }

  /** A generated playlist, stored under its own path, protects exactly the stored segments of its window. */
  lemma {:induction false} ReferencedIsWindow(
    stream: string, rendition: string, segments: seq<PlaylistSegment>, hlsVersion: nat, isVod: bool, isFinished: bool,
    key: string)
    requires AllPrintable(segments)
    ensures key in ReferencedBy(MediaPlaylistPath(stream, rendition),
                                Unlines(PlaylistLines(segments, hlsVersion, isVod, isFinished))) <==>
      exists i :: 0 <= i < |segments| && key == SegmentPath(stream, rendition, segments[i].sequence)
  {
    var dir := stream + "/" + rendition;
    assert '/' !in "media.m3u8";
    ParentOf(dir, "media.m3u8");
    ScanInvertsPlaylist(segments, hlsVersion, isVod, isFinished);
    FullKeysAre(dir, segments, key);
  }

  /** Different renditions of a stream, and different numbers of a rendition, have different keys. */
  lemma {:induction false} SegmentPathsDiffer(stream: string, r1: string, n1: nat, r2: string, n2: nat)
    requires SegmentPath(stream, r1, n1) == SegmentPath(stream, r2, n2)
    ensures r1 == r2 && n1 == n2
  {
    var d1, d2 := stream + "/" + r1, stream + "/" + r2;
    FilenameNames(n1);
    FilenameNames(n2);
    ParentOf(d1, SegmentFilename(n1));
    ParentOf(d2, SegmentFilename(n2));
    assert d1 == d2;
    assert d1[|stream| + 1..] == r1 && d2[|stream| + 1..] == r2;
    var p := d1 + "/";
    assert (p + SegmentFilename(n1))[|p|..] == SegmentFilename(n1);
    assert (p + SegmentFilename(n2))[|p|..] == SegmentFilename(n2);
    FilenamesDiffer(n1, n2);
  }

  // ----- One cycle over the objects of a live stream -----

  /** A stored object: when it was written, in milliseconds, and its text. */
  datatype Stored = Stored(lastModified: int, body: string)

  datatype Listed = Listed(key: string, lastModified: int)

  /** The listing holds every object whose key starts with the prefix, and nothing else. */
  ghost predicate ListsAll(listing: seq<Listed>, objects: map<string, Stored>, prefix: string) {
    && (forall i :: 0 <= i < |listing| ==>
          && listing[i].key in objects && prefix <= listing[i].key
          && objects[listing[i].key].lastModified == listing[i].lastModified)
    && (forall k :: k in objects && prefix <= k ==> exists i :: 0 <= i < |listing| && listing[i].key == k)
  }

  predicate IsPlaylist(key: string) {
    EndsWith(key, "media.m3u8")
  }

  predicate IsSegment(key: string) {
    EndsWith(key, SEGMENT_SUFFIX) && !Occurs("init.mp4", key)
  }

  /** The segments named by the readable playlists among the first `n` listed objects. */
  function ReferencedTo(listing: seq<Listed>, n: nat, objects: map<string, Stored>, unreadable: set<string>)
    : set<string>
    requires n <= |listing|
  {
    if n == 0 then {}
    else
      var key := listing[n - 1].key;
      ReferencedTo(listing, n - 1, objects, unreadable) +
      (if IsPlaylist(key) && key in objects && key !in unreadable then ReferencedBy(key, objects[key].body) else {})
  }

  predicate Expired(lastModified: int, now: int, retentionMinutes: nat) {
    now - lastModified > retentionMinutes * 60000
  }

  /** The keys among the first `n` listed objects that the cycle tries to delete. */
  function AttemptsTo(listing: seq<Listed>, n: nat, referenced: set<string>, now: int, retentionMinutes: nat)
    : set<string>
    requires n <= |listing|
  {
    if n == 0 then {}
    else
      var o := listing[n - 1];
      AttemptsTo(listing, n - 1, referenced, now, retentionMinutes) +
      (if IsSegment(o.key) && Expired(o.lastModified, now, retentionMinutes) && o.key !in referenced
       then {o.key} else {})
  }

  /** An object store in which some keys cannot be read and some cannot be deleted. */
  class MediaStore {
    const unreadable: set<string>
    const stuck: set<string>
    var objects: map<string, Stored>

    constructor (unreadable: set<string>, stuck: set<string>)
      ensures this.unreadable == unreadable && this.stuck == stuck && objects == map[]
    {
      this.unreadable, this.stuck, objects := unreadable, stuck, map[];
    }

    method GetObject(key: string) returns (body: Option<string>)
      ensures body == if key in objects && key !in unreadable then Some(objects[key].body) else None
    {
      body := if key in objects && key !in unreadable then Some(objects[key].body) else None;
    }

    method DeleteObject(key: string) returns (ok: bool)
      modifies this`objects
      ensures ok == (key !in stuck)
      ensures objects == if ok then old(objects) - {key} else old(objects)
    {
      ok := key !in stuck;
      if ok {
        objects := objects - {key};
      }
    }
  }

  /** Reads the playlists of a stream for the segments they name. */
  method CollectReferenced(store: MediaStore, listing: seq<Listed>) returns (referenced: set<string>)
    ensures referenced == ReferencedTo(listing, |listing|, store.objects, store.unreadable)
  {
    referenced := {};
    for i := 0 to |listing|
      invariant referenced == ReferencedTo(listing, i, store.objects, store.unreadable)
    {
      var key := listing[i].key;
      if IsPlaylist(key) {
        var body := store.GetObject(key);
        if body.Some? {
          referenced := AddReferenced(key, body.value, referenced);
        }
      }
    }
  }

  /** Deletes the expired segments of a stream that no playlist names. */
  method CleanLiveStream(store: MediaStore, listing: seq<Listed>, now: int, retentionMinutes: nat)
    returns (deleted: nat)
    modifies store`objects
    ensures var referenced := ReferencedTo(listing, |listing|, old(store.objects), store.unreadable);
      store.objects ==
        old(store.objects) - (AttemptsTo(listing, |listing|, referenced, now, retentionMinutes) - store.stuck)
  {
    var referenced := CollectReferenced(store, listing);
    ghost var before := store.objects;
    deleted := 0;
    for i := 0 to |listing|
      invariant store.objects == before - (AttemptsTo(listing, i, referenced, now, retentionMinutes) - store.stuck)
    {
      var o := listing[i];
      if IsSegment(o.key) && Expired(o.lastModified, now, retentionMinutes) && o.key !in referenced {
        var ok := store.DeleteObject(o.key);
        if ok {
          deleted := deleted + 1;
        }
      }
    }
  }

  lemma {:induction false} ReferencedAre(
    listing: seq<Listed>, n: nat, objects: map<string, Stored>, unreadable: set<string>, k: string)
    requires n <= |listing|
    ensures k in ReferencedTo(listing, n, objects, unreadable) <==>
      exists i :: 0 <= i < n && IsPlaylist(listing[i].key) && listing[i].key in objects
        && listing[i].key !in unreadable && k in ReferencedBy(listing[i].key, objects[listing[i].key].body)
  {
    if n > 0 {
      ReferencedAre(listing, n - 1, objects, unreadable, k);
    }
  }

  lemma {:induction false} AttemptsAre(
    listing: seq<Listed>, n: nat, referenced: set<string>, now: int, retentionMinutes: nat, k: string)
    requires n <= |listing|
    ensures k in AttemptsTo(listing, n, referenced, now, retentionMinutes) <==>
      exists i :: 0 <= i < n && listing[i].key == k && IsSegment(k)
        && Expired(listing[i].lastModified, now, retentionMinutes) && k !in referenced
  {
    if n > 0 {
      AttemptsAre(listing, n - 1, referenced, now, retentionMinutes, k);
    }
  }

  /** The latest window that a stream's packager published for each rendition. */
  datatype Published = Published(segments: seq<PlaylistSegment>, hlsVersion: nat, isVod: bool, isFinished: bool)

  function PublishedText(p: Published): string {
    Unlines(PlaylistLines(p.segments, p.hlsVersion, p.isVod, p.isFinished))
  }

  /** The playlists of the stream are the published ones, each under its own path. */
  ghost predicate PlaylistsPublished(objects: map<string, Stored>, stream: string, published: map<string, Published>) {
    && (forall r :: r in published ==>
          && AllPrintable(published[r].segments)
          && MediaPlaylistPath(stream, r) in objects
          && objects[MediaPlaylistPath(stream, r)].body == PublishedText(published[r]))
    && (forall k :: k in objects && stream + "/" <= k && IsPlaylist(k) ==>
          exists r :: r in published && k == MediaPlaylistPath(stream, r))
  }

  ghost predicate InWindow(p: Published, n: nat) {
    exists i :: 0 <= i < |p.segments| && p.segments[i].sequence == n
  }

  lemma {:induction false} WindowReferences(stream: string, r: string, p: Published, rendition: string, n: nat)
    requires AllPrintable(p.segments)
    ensures SegmentPath(stream, rendition, n) in ReferencedBy(MediaPlaylistPath(stream, r), PublishedText(p)) <==>
      r == rendition && InWindow(p, n)
  {
    var key := SegmentPath(stream, rendition, n);
    ReferencedIsWindow(stream, r, p.segments, p.hlsVersion, p.isVod, p.isFinished, key);
    if i :| 0 <= i < |p.segments| && key == SegmentPath(stream, r, p.segments[i].sequence) {
      SegmentPathsDiffer(stream, rendition, n, r, p.segments[i].sequence);
    }
  }

  lemma {:induction false} PlaylistListed(listing: seq<Listed>, objects: map<string, Stored>, stream: string, r: string)
    returns (i: nat)
    requires ListsAll(listing, objects, stream + "/") && MediaPlaylistPath(stream, r) in objects
    ensures i < |listing| && listing[i].key == MediaPlaylistPath(stream, r) && IsPlaylist(listing[i].key)
  {
    var k := MediaPlaylistPath(stream, r);
    var p := stream + "/" + r + "/";
    assert k == p + "media.m3u8" && k[|p|..] == "media.m3u8";
    assert k[..|stream| + 1] == stream + "/";
    i :| 0 <= i < |listing| && listing[i].key == k;
  }

  /** The playlists are read one after the other, after `objects` was listed: `seen` has each one as it was when its
      own turn came, and the stream may have gone on between any two of them. A segment of the stream is protected
      exactly when the playlist of its own rendition was listed, can be read, and had it in its window then. */
  lemma {:induction false} ProtectedExactly(
    listing: seq<Listed>, objects: map<string, Stored>, seen: map<string, Stored>, unreadable: set<string>,
    stream: string, published: map<string, Published>, rendition: string, n: nat)
    requires ListsAll(listing, objects, stream + "/") && PlaylistsPublished(seen, stream, published)
    ensures SegmentPath(stream, rendition, n) in ReferencedTo(listing, |listing|, seen, unreadable) <==>
      rendition in published && InWindow(published[rendition], n)
      && ReadByCycle(objects, unreadable, MediaPlaylistPath(stream, rendition))
  {
    var key := SegmentPath(stream, rendition, n);
    ReferencedAre(listing, |listing|, seen, unreadable, key);
    if key in ReferencedTo(listing, |listing|, seen, unreadable) {
      var i :| 0 <= i < |listing| && IsPlaylist(listing[i].key) && listing[i].key in seen
        && listing[i].key !in unreadable && key in ReferencedBy(listing[i].key, seen[listing[i].key].body);
      var r :| r in published && listing[i].key == MediaPlaylistPath(stream, r);
      WindowReferences(stream, r, published[r], rendition, n);
    }
    if rendition in published && InWindow(published[rendition], n)
       && ReadByCycle(objects, unreadable, MediaPlaylistPath(stream, rendition)) {
      var i := PlaylistListed(listing, objects, stream, rendition);
      WindowReferences(stream, rendition, published[rendition], rendition, n);
    }
  }

  /** A playlist that a cycle reads: there when the cycle lists the objects, and readable. */
  predicate ReadByCycle(objects: map<string, Stored>, unreadable: set<string>, playlist: string) {
    playlist in objects && playlist !in unreadable
  }

  /** What a cycle leaves: a segment that is listed, and among the objects `stored` when the cycle comes to deleting, is
      gone afterwards exactly if it is older than the retention, its deletion succeeds, its key is not taken for an
      init segment, and no playlist that the cycle reads has it in the window. */
  lemma {:induction false} DeletedExactly(
    listing: seq<Listed>, objects: map<string, Stored>, seen: map<string, Stored>, stored: map<string, Stored>,
    unreadable: set<string>, stuck: set<string>, now: int, retentionMinutes: nat, stream: string,
    published: map<string, Published>, rendition: string, n: nat)
    requires ListsAll(listing, objects, stream + "/") && PlaylistsPublished(seen, stream, published)
    requires SegmentPath(stream, rendition, n) in objects && SegmentPath(stream, rendition, n) in stored
    ensures var key := SegmentPath(stream, rendition, n);
      var referenced := ReferencedTo(listing, |listing|, seen, unreadable);
      key !in stored - (AttemptsTo(listing, |listing|, referenced, now, retentionMinutes) - stuck) <==>
        && Expired(objects[key].lastModified, now, retentionMinutes)
        && key !in stuck && !Occurs("init.mp4", key)
        && !(rendition in published && InWindow(published[rendition], n)
             && ReadByCycle(objects, unreadable, MediaPlaylistPath(stream, rendition)))
  {
    var key := SegmentPath(stream, rendition, n);
    var referenced := ReferencedTo(listing, |listing|, seen, unreadable);
    ProtectedExactly(listing, objects, seen, unreadable, stream, published, rendition, n);
    AttemptsAre(listing, |listing|, referenced, now, retentionMinutes, key);
    SegmentKey(stream, rendition, n);
    var i :| 0 <= i < |listing| && listing[i].key == key;
  }

  lemma {:induction false} SegmentKey(stream: string, rendition: string, n: nat)
    ensures EndsWith(SegmentPath(stream, rendition, n), SEGMENT_SUFFIX)
    ensures stream + "/" <= SegmentPath(stream, rendition, n)
  {
    var p := stream + "/" + rendition + "/" + Padded(n, 6);
    var key := SegmentPath(stream, rendition, n);
    assert key == p + SEGMENT_SUFFIX && key[|p|..] == SEGMENT_SUFFIX;
    assert key[..|stream| + 1] == stream + "/";
  }

  /** Playlists, init segments and objects of other streams are never touched. */
  lemma {:induction false} OnlySegmentsDeleted(
    listing: seq<Listed>, objects: map<string, Stored>, referenced: set<string>, now: int, retentionMinutes: nat,
    stream: string, k: string)
    requires ListsAll(listing, objects, stream + "/")
    requires k in AttemptsTo(listing, |listing|, referenced, now, retentionMinutes)
    ensures stream + "/" <= k && IsSegment(k) && k in objects
      && Expired(objects[k].lastModified, now, retentionMinutes)
  {
    AttemptsAre(listing, |listing|, referenced, now, retentionMinutes, k);
  }

  lemma {:induction false} WindowSegmentAt(window: Option<nat>, added: seq<Added>, i: nat)
    requires i < |Run(window, added).entries|
    ensures var gone, segments := Gone(window, |added|), PlaylistSegmentsOf(Run(window, added).entries);
      i < |segments| && gone + i < |added| && segments[i] == PlaylistSegmentOf(EntryOf(gone + i, added[gone + i]))
  {
    WindowIsLatest(window, added);
    PlaylistSegmentsAt(Run(window, added).entries, i);
  }

  predicate ShownAll(added: seq<Added>) {
    forall i :: 0 <= i < |added| ==> SingleLine(added[i].shown) && SingleLine(added[i].date)
  }

  /** The playlist that a rendition has after some segments. */
  function WindowPlaylist(
    window: Option<nat>, added: seq<Added>, hlsVersion: nat, isVod: bool, isFinished: bool): Published
  {
    Published(PlaylistSegmentsOf(Run(window, added).entries), hlsVersion, isVod, isFinished)
  }

  /** Of a rendition with a window of `w` segments, the playlist protects exactly the latest `w` segments added. */
  lemma {:induction false} LatestProtected(
    window: Option<nat>, added: seq<Added>, hlsVersion: nat, isVod: bool, isFinished: bool, n: nat)
    requires ShownAll(added)
    ensures var p := WindowPlaylist(window, added, hlsVersion, isVod, isFinished);
      && AllPrintable(p.segments)
      && (InWindow(p, n) <==> Gone(window, |added|) <= n < |added|)
  {
    var entries := Run(window, added).entries;
    var segments := PlaylistSegmentsOf(entries);
    var gone := Gone(window, |added|);
    WindowIsLatest(window, added);
    PlaylistSegmentsCount(entries);
    forall i | 0 <= i < |segments|
      ensures Printable(segments[i]) && segments[i].sequence == gone + i
    {
      WindowSegmentAt(window, added, i);
    }
    if gone <= n < |added| {
      assert segments[n - gone].sequence == n;
    }
  }

  // ----- Cleaning up while the stream goes on -----

  /** The playlist of a rendition names segment `n`, now or after some more segments. */
  ghost predicate NamedFromNowOn(
    window: Option<nat>, added: seq<Added>, hlsVersion: nat, isVod: bool, isFinished: bool, n: nat)
  {
    exists more: seq<Added> :: ShownAll(more)
      && InWindow(WindowPlaylist(window, added + more, hlsVersion, isVod, isFinished), n)
  }

  lemma {:induction false} LaterWindow(
    window: Option<nat>, added: seq<Added>, more: seq<Added>, hlsVersion: nat, isVod: bool, isFinished: bool, n: nat)
    requires ShownAll(added) && ShownAll(more)
    ensures InWindow(WindowPlaylist(window, added + more, hlsVersion, isVod, isFinished), n)
       <==> Gone(window, |added| + |more|) <= n < |added| + |more|
  {
    assert ShownAll(added + more);
    LatestProtected(window, added + more, hlsVersion, isVod, isFinished, n);
  }

  /** A segment that has not left the window is named from now on, unless the window has no room at all; a segment
      that has left it never comes back. */
  lemma {:induction false} NamedFromNowOnExactly(
    window: Option<nat>, added: seq<Added>, hlsVersion: nat, isVod: bool, isFinished: bool, n: nat)
    requires ShownAll(added)
    ensures NamedFromNowOn(window, added, hlsVersion, isVod, isFinished, n)
       <==> n >= Gone(window, |added|) && window != Some(0)
  {
    if NamedFromNowOn(window, added, hlsVersion, isVod, isFinished, n) {
      var more: seq<Added> :| ShownAll(more)
        && InWindow(WindowPlaylist(window, added + more, hlsVersion, isVod, isFinished), n);
      LaterWindow(window, added, more, hlsVersion, isVod, isFinished, n);
    }
    if n >= Gone(window, |added|) && window != Some(0) {
      var more := Blanks(if n < |added| then 0 else n + 1 - |added|);
      LaterWindow(window, added, more, hlsVersion, isVod, isFinished, n);
    }
  }

  function Blanks(n: nat): (r: seq<Added>)
    ensures |r| == n && ShownAll(r)
  {
    if n == 0 then [] else Blanks(n - 1) + [Added(0, "", "", "")]
  }

  lemma {:induction false} ReadableReferences(
    listing: seq<Listed>, i: nat, later: map<string, Stored>, unreadable: set<string>, stream: string, r: string,
    p: Published, n: nat)
    requires i < |listing| && listing[i].key == MediaPlaylistPath(stream, r) && IsPlaylist(listing[i].key)
    requires listing[i].key in later && listing[i].key !in unreadable
    requires later[listing[i].key].body == PublishedText(p) && AllPrintable(p.segments) && InWindow(p, n)
    ensures SegmentPath(stream, r, n) in ReferencedTo(listing, |listing|, later, unreadable)
  {
    WindowReferences(stream, r, p, r, n);
    ReferencedAre(listing, |listing|, later, unreadable, SegmentPath(stream, r, n));
  }

  /** The playlists are read after the objects are listed, and the packaging task goes on in the meantime and
      afterwards. A segment that the cycle tries to delete is out of the playlist for good exactly if the playlist that
      the cycle read had named it before. It is sent to players after all if that playlist, one segment behind the
      store, had yet to name it; and, when the playlist could not be read, if it has not left the window. */
  lemma {:induction false} DeletedStaysOut(
    listing: seq<Listed>, objects: map<string, Stored>, later: map<string, Stored>, unreadable: set<string>,
    now: int, retentionMinutes: nat, stream: string, r: string, window: Option<nat>, added: seq<Added>,
    hlsVersion: nat, isVod: bool, isFinished: bool, n: nat)
    requires ListsAll(listing, objects, stream + "/") && ShownAll(added)
    requires MediaPlaylistPath(stream, r) in later
    requires later[MediaPlaylistPath(stream, r)].body
          == PublishedText(WindowPlaylist(window, added, hlsVersion, isVod, isFinished))
    requires SegmentPath(stream, r, n) in AttemptsTo(
      listing, |listing|, ReferencedTo(listing, |listing|, later, unreadable), now, retentionMinutes)
    ensures !NamedFromNowOn(window, added, hlsVersion, isVod, isFinished, n) <==>
      || window == Some(0)
      || n < (if ReadByCycle(objects, unreadable, MediaPlaylistPath(stream, r)) then |added|
              else Gone(window, |added|))
  {
    var p := WindowPlaylist(window, added, hlsVersion, isVod, isFinished);
    LatestProtected(window, added, hlsVersion, isVod, isFinished, n);
    NamedFromNowOnExactly(window, added, hlsVersion, isVod, isFinished, n);
    AttemptsAre(listing, |listing|, ReferencedTo(listing, |listing|, later, unreadable), now, retentionMinutes,
                SegmentPath(stream, r, n));
    if ReadByCycle(objects, unreadable, MediaPlaylistPath(stream, r)) && InWindow(p, n) {
      var i := PlaylistListed(listing, objects, stream, r);
      ReadableReferences(listing, i, later, unreadable, stream, r, p, n);
    }
  }

  lemma {:induction false} PathsTellApart(stream: string, r: string, n: nat)
    ensures IsPlaylist(MediaPlaylistPath(stream, r)) && !IsPlaylist(SegmentPath(stream, r, n))
    ensures stream + "/" <= MediaPlaylistPath(stream, r) && stream + "/" <= SegmentPath(stream, r, n)
  {
    SegmentKey(stream, r, n);
    var k, p := MediaPlaylistPath(stream, r), stream + "/" + r + "/";
    assert k == p + "media.m3u8" && k[|p|..] == "media.m3u8";
    assert k[..|stream| + 1] == stream + "/";
    assert SEGMENT_SUFFIX[|SEGMENT_SUFFIX| - 1] == 's' && "media.m3u8"[9] == '8';
  }

  /** The race of segment and playlist does happen, and retention alone guards against it: a cycle that runs between
      the two writes deletes the segment as soon as it is older than the retention, which at a retention of 0 is a
      millisecond, although the very next playlist names it. */
  lemma {:induction false} UnnamedDeleted(
    stream: string, r: string, window: Option<nat>, added: seq<Added>, next: Added, hlsVersion: nat, isVod: bool,
    written: int, now: int, retentionMinutes: nat)
    returns (listing: seq<Listed>, objects: map<string, Stored>)
    requires window != Some(0) && ShownAll(added + [next]) && Expired(written, now, retentionMinutes)
    requires !Occurs("init.mp4", SegmentPath(stream, r, |added|))
    ensures ListsAll(listing, objects, stream + "/")
    ensures PlaylistsPublished(objects, stream, map[r := WindowPlaylist(window, added, hlsVersion, isVod, false)])
    ensures SegmentPath(stream, r, |added|) in AttemptsTo(
      listing, |listing|, ReferencedTo(listing, |listing|, objects, {}), now, retentionMinutes)
    ensures InWindow(WindowPlaylist(window, added + [next], hlsVersion, isVod, false), |added|)
  {
    var p := WindowPlaylist(window, added, hlsVersion, isVod, false);
    PrintedBefore(added, [next]);
    LatestProtected(window, added, hlsVersion, isVod, false, |added|);
    LatestProtected(window, added + [next], hlsVersion, isVod, false, |added|);
    listing, objects := BetweenAttempted(stream, r, p, |added|, written, now, retentionMinutes);
  }

  lemma {:induction false} BetweenAttempted(
    stream: string, r: string, p: Published, n: nat, written: int, now: int, retentionMinutes: nat)
    returns (listing: seq<Listed>, objects: map<string, Stored>)
    requires AllPrintable(p.segments) && !InWindow(p, n) && Expired(written, now, retentionMinutes)
    requires !Occurs("init.mp4", SegmentPath(stream, r, n))
    ensures ListsAll(listing, objects, stream + "/") && PlaylistsPublished(objects, stream, map[r := p])
    ensures SegmentPath(stream, r, n) in AttemptsTo(
      listing, |listing|, ReferencedTo(listing, |listing|, objects, {}), now, retentionMinutes)
  {
    listing, objects := BetweenPublished(stream, r, p, n, written);
    var key := SegmentPath(stream, r, n);
    var referenced := ReferencedTo(listing, |listing|, objects, {});
    ProtectedExactly(listing, objects, objects, {}, stream, map[r := p], r, n);
    SegmentKey(stream, r, n);
    AttemptsAre(listing, |listing|, referenced, now, retentionMinutes, key);
  }

  lemma {:induction false} BetweenPublished(stream: string, r: string, p: Published, n: nat, written: int)
    returns (listing: seq<Listed>, objects: map<string, Stored>)
    requires AllPrintable(p.segments)
    ensures ListsAll(listing, objects, stream + "/") && PlaylistsPublished(objects, stream, map[r := p])
    ensures |listing| == 2 && listing[1] == Listed(SegmentPath(stream, r, n), written)
  {
    PathsTellApart(stream, r, n);
    listing := [Listed(MediaPlaylistPath(stream, r), written), Listed(SegmentPath(stream, r, n), written)];
    objects := map[MediaPlaylistPath(stream, r) := Stored(written, PublishedText(p)),
                   SegmentPath(stream, r, n) := Stored(written, "")];
    assert listing[0].key == MediaPlaylistPath(stream, r) && listing[1].key == SegmentPath(stream, r, n);
    assert r in map[r := p];
  }

  lemma {:induction false} PrintedBefore(added: seq<Added>, more: seq<Added>)
    requires ShownAll(added + more)
    ensures ShownAll(added)
  {
    forall i | 0 <= i < |added|
      ensures SingleLine(added[i].shown) && SingleLine(added[i].date)
    {
      assert (added + more)[i] == added[i];
    }
  }

  // ----- The end marker -----

  const END_MARKER := "#EXT-X-ENDLIST"

  /** Reading a playlist text, line by line, finds the end marker. */
  predicate Ended(text: string) {
    END_MARKER in Lines(text)
  }

  lemma {:induction false} HeaderNotEnd(segments: seq<PlaylistSegment>, hlsVersion: nat, isVod: bool)
    ensures END_MARKER !in Header(segments, hlsVersion, isVod)
  {
    assert END_MARKER[7] == 'E' && |END_MARKER| == 14;
    assert ("#EXT-X-VERSION:" + Padded(hlsVersion, 1))[7] == 'V';
    assert ("#EXT-X-TARGETDURATION:" + Padded(TargetDuration(segments), 1))[7] == 'T';
    assert ("#EXT-X-MEDIA-SEQUENCE:" + Padded(MediaSequence(segments), 1))[7] == 'M';
    assert "#EXT-X-PLAYLIST-TYPE:VOD"[7] == 'P' && "#EXT-X-MAP:URI=\"init.mp4\""[7] == 'M';
  }

  lemma {:induction false} SegmentLinesNotEnd(s: PlaylistSegment)
    requires Printable(s)
    ensures END_MARKER !in SegmentLines(s)
  {
    PaddedReadsBack(s.sequence, 6);
    var f := Padded(s.sequence, 6) + SEGMENT_SUFFIX;
    assert END_MARKER[0] == '#' && END_MARKER[7] == 'E' && END_MARKER[4] == '-';
    assert f[0] == Padded(s.sequence, 6)[0];
    assert ("#EXTINF:" + s.shown + ",")[4] == 'I';
    if s.date.Some? {
      assert ("#EXT-X-PROGRAM-DATE-TIME:" + s.date.value)[7] == 'P';
    }
  }

  lemma {:induction false} BodyNotEnd(segments: seq<PlaylistSegment>)
    requires AllPrintable(segments)
    ensures END_MARKER !in BodyLines(segments)
  {
    if segments != [] {
      SegmentLinesNotEnd(segments[0]);
      BodyNotEnd(segments[1..]);
    }
  }

  /** A generated playlist ends with the end marker if it is the finished one, and has none anywhere otherwise. */
  lemma {:induction false} EndedExactly(p: Published)
    requires AllPrintable(p.segments)
    ensures Ended(PublishedText(p)) <==> p.isFinished
  {
    var head, body := Header(p.segments, p.hlsVersion, p.isVod), BodyLines(p.segments);
    HeaderSilent(p.segments, p.hlsVersion, p.isVod);
    HeaderNotEnd(p.segments, p.hlsVersion, p.isVod);
    BodyNames(p.segments);
    BodyNotEnd(p.segments);
    EndSilent(p.isFinished);
    EndParts(head, body, EndLines(p.isFinished), END_MARKER);
  }

  lemma {:induction false} EndParts(head: seq<string>, body: seq<string>, end: seq<string>, marker: string)
    requires forall i :: 0 <= i < |head| ==> SingleLine(head[i])
    requires forall i :: 0 <= i < |body| ==> SingleLine(body[i])
    requires forall i :: 0 <= i < |end| ==> SingleLine(end[i])
    requires marker !in head && marker !in body
    ensures marker in Lines(Unlines(head + (body + end))) <==> marker in end
  {
    LinesInvertUnlines(head + (body + end));
  }
}
