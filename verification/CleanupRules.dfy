/** The rules of the cleanup cycle, said of keys, lines and times by their positions and numbers, and of playlists that
    others than the packager wrote. */
module CleanupRules {
  import opened Bytes
  import opened Cleanup

  // ----- Text -----

  predicate HasAt(pattern: string, s: string, i: nat) {
    i + |pattern| <= |s| && s[i..i + |pattern|] == pattern
  }

  predicate Inside(pattern: string, s: string) {
    exists i :: 0 <= i <= |s| && HasAt(pattern, s, i)
  }

  lemma {:induction false} OccursMeans(pattern: string, s: string)
    ensures Occurs(pattern, s) <==> Inside(pattern, s)
  {
    assert pattern <= s <==> HasAt(pattern, s, 0);
    if s != "" {
      OccursMeans(pattern, s[1..]);
      forall i | 0 <= i < |s|
        ensures HasAt(pattern, s[1..], i) <==> HasAt(pattern, s, i + 1)
      {
        assert i + 1 + |pattern| <= |s| ==> s[1..][i..i + |pattern|] == s[i + 1..i + 1 + |pattern|];
      }
      if i: nat :| i <= |s| && HasAt(pattern, s, i) {
        assert i > 0 ==> HasAt(pattern, s[1..], i - 1);
      }
    }
  }

  /** `t` is `s` without the white space at both ends. */
  ghost predicate IsTrimmed(t: string, s: string) {
    exists a: nat, b: nat :: Trimmed(t, s, a, b)
  }

  predicate Trimmed(t: string, s: string, a: nat, b: nat) {
    && a <= b <= |s| && t == s[a..b] && AllSpaces(s[..a]) && AllSpaces(s[b..])
    && (t != "" ==> !IsSpace(t[0]) && !IsSpace(t[|t| - 1]))
  }

  predicate AllSpaces(s: string) {
    forall i :: 0 <= i < |s| ==> IsSpace(s[i])
  }

  lemma {:induction false} TrimStartMeans(s: string) returns (a: nat)
    ensures a <= |s| && TrimStart(s) == s[a..] && AllSpaces(s[..a])
    ensures TrimStart(s) != "" ==> !IsSpace(TrimStart(s)[0])
  {
    a := 0;
    if s != "" && IsSpace(s[0]) {
      a := TrimStartMeans(s[1..]);
      assert s[..a + 1] == [s[0]] + s[1..][..a] && s[1..][a..] == s[a + 1..];
      a := a + 1;
    }
  }

  lemma {:induction false} TrimEndMeans(s: string) returns (b: nat)
    ensures b <= |s| && TrimEnd(s) == s[..b] && AllSpaces(s[b..])
    ensures TrimEnd(s) != "" ==> !IsSpace(TrimEnd(s)[|TrimEnd(s)| - 1])
  {
    b := |s|;
    if s != "" && IsSpace(s[|s| - 1]) {
      var n := |s| - 1;
      b := TrimEndMeans(s[..n]);
      assert s[b..] == s[..n][b..] + [s[n]] && s[..n][..b] == s[..b];
    }
  }

  lemma {:induction false} TrimMeans(s: string)
    ensures IsTrimmed(Trim(s), s)
  {
    var a := TrimStartMeans(s);
    var u := s[a..];
    var b := TrimEndMeans(u);
    assert u[..b] == s[a..a + b] && u[b..] == s[a + b..];
    assert Trimmed(Trim(s), s, a, a + b);
  }

  // ----- Lines -----

  /** A line and whether its break has a carriage return. */
  datatype Ended = Ended(line: string, crlf: bool)

  function TextOf(lines: seq<Ended>, last: string): string {
    if lines == [] then last
    else lines[0].line + ((if lines[0].crlf then "\r\n" else "\n") + TextOf(lines[1..], last))
  }

  function LinesOf(lines: seq<Ended>): seq<string> {
    if lines == [] then [] else [lines[0].line] + LinesOf(lines[1..])
  }

  /** No line has a break inside, and none that ends without a carriage return ends in one. */
  predicate Breakable(lines: seq<Ended>) {
    forall i :: 0 <= i < |lines| ==>
      '\n' !in lines[i].line && (!lines[i].crlf && lines[i].line != "" ==> lines[i].line[|lines[i].line| - 1] != '\r')
  }

  lemma {:induction false} BreakFound(raw: string, rest: string)
    requires '\n' !in raw
    ensures Find(raw + ("\n" + rest), '\n') == |raw|
  {
    var text := raw + ("\n" + rest);
    assert text[|raw|] == '\n' && forall i :: 0 <= i < |raw| ==> text[i] == raw[i];
  }

  lemma {:induction false} RawLine(raw: string, rest: string)
    requires '\n' !in raw
    ensures Lines(raw + ("\n" + rest)) == [StripReturn(raw)] + Lines(rest)
  {
    var text := raw + ("\n" + rest);
    BreakFound(raw, rest);
    assert text[..|raw|] == raw && text[|raw| + 1..] == rest;
  }

  lemma {:induction false} OneLine(line: string, crlf: bool, rest: string)
    requires '\n' !in line && (!crlf && line != "" ==> line[|line| - 1] != '\r')
    ensures Lines(line + ((if crlf then "\r\n" else "\n") + rest)) == [line] + Lines(rest)
  {
    if crlf {
      var raw := line + "\r";
      RawLine(raw, rest);
      assert raw[..|raw| - 1] == line;
      assert line + ("\r\n" + rest) == raw + ("\n" + rest);
    } else {
      RawLine(line, rest);
    }
  }

  /** Lines with breaks of either kind, and a last one without, are read back. */
  lemma {:induction false} LinesReadBack(lines: seq<Ended>, last: string)
    requires Breakable(lines) && '\n' !in last
    ensures Lines(TextOf(lines, last)) == LinesOf(lines) + (if last == "" then [] else [last])
  {
    var end := if last == "" then [] else [last];
    if lines == [] {
      assert [] + end == end;
    } else {
      LinesReadBack(lines[1..], last);
      OneLine(lines[0].line, lines[0].crlf, TextOf(lines[1..], last));
      assert [lines[0].line] + (LinesOf(lines[1..]) + end) == [lines[0].line] + LinesOf(lines[1..]) + end;
    }
  }

  // ----- What a playlist names -----

  /** The line, without white space around it, is no tag and ends in `.m4s`; it is a key of its own if it has a slash,
      or if the playlist is in no directory, and otherwise a name beside the playlist. */
  ghost predicate LineNames(line: string, dir: string, key: string) {
    exists t: string :: IsTrimmed(t, line) && NameIs(t, dir, key)
  }

  predicate NameIs(t: string, dir: string, key: string) {
    && |t| >= 4 && t[0] != '#' && t[|t| - 4..] == ".m4s"
    && key == (if dir == "" || exists i :: 0 <= i < |t| && t[i] == '/' then t else dir + "/" + t)
  }

  lemma {:induction false} FullKeysAre(dir: string, names: seq<string>, key: string)
    ensures key in FullKeys(dir, names) <==> exists i :: 0 <= i < |names| && key == FullKey(dir, names[i])
  {
    if names != [] {
      FullKeysAre(dir, names[1..], key);
      assert forall i :: 0 <= i < |names| - 1 ==> names[1..][i] == names[i + 1];
    }
  }

  lemma {:induction false} NamesAre(lines: seq<string>, dir: string, key: string)
    ensures key in FullKeys(dir, SegmentNames(lines)) <==>
      exists i :: 0 <= i < |lines| && NameIs(Trim(lines[i]), dir, key)
  {
    if lines != [] {
      var rest := SegmentNames(lines[1..]);
      NamesAre(lines[1..], dir, key);
      NameMeans(Trim(lines[0]), dir, key);
      if NamesSegment(Trim(lines[0])) {
        FullKeysCons(dir, Trim(lines[0]), rest);
      } else {
        assert [] + rest == rest;
      }
      FirstOrLater(lines, dir, key);
    }
  }

  lemma {:induction false} FirstOrLater(lines: seq<string>, dir: string, key: string)
    requires lines != []
    ensures (exists i :: 0 <= i < |lines| && NameIs(Trim(lines[i]), dir, key)) <==>
      NameIs(Trim(lines[0]), dir, key) || exists i :: 0 <= i < |lines[1..]| && NameIs(Trim(lines[1..][i]), dir, key)
  {
    if i :| 0 <= i < |lines[1..]| && NameIs(Trim(lines[1..][i]), dir, key) {
      assert lines[i + 1] == lines[1..][i];
    }
    if i :| 0 <= i < |lines| && NameIs(Trim(lines[i]), dir, key) {
      assert i > 0 ==> lines[1..][i - 1] == lines[i];
    }
  }

  lemma {:induction false} NameMeans(t: string, dir: string, key: string)
    ensures NameIs(t, dir, key) <==> NamesSegment(t) && key == FullKey(dir, t)
  {
    assert '/' in t <==> exists i :: 0 <= i < |t| && t[i] == '/';
  }

  /** White space around a line is stripped in one way only. */
  lemma {:induction false} TrimmedOnce(s: string, t: string)
    ensures IsTrimmed(t, s) <==> t == Trim(s)
  {
    TrimMeans(s);
    if IsTrimmed(t, s) {
      var a: nat, b: nat :| Trimmed(t, s, a, b);
      var c: nat, d: nat :| Trimmed(Trim(s), s, c, d);
      SameBounds(s, t, a, b, Trim(s), c, d);
      SameBounds(s, Trim(s), c, d, t, a, b);
    }
  }

  /** The stretch between the bounds of `t` has no visible character outside those of `u`. */
  lemma {:induction false} SameBounds(s: string, t: string, a: nat, b: nat, u: string, c: nat, d: nat)
    requires Trimmed(t, s, a, b) && Trimmed(u, s, c, d)
    ensures t != "" ==> c <= a && b <= d && u != ""
  {
    if t != "" {
      assert t[0] == s[a] && t[|t| - 1] == s[b - 1];
    }
  }

  /** The directory of a key. */
  lemma {:induction false} ParentMeans(key: string)
    ensures if '/' in key then exists name: string :: '/' !in name && key == Parent(key) + "/" + name
            else Parent(key) == ""
  {
    if key != "" {
      var n := |key| - 1;
      if key[n] == '/' {
        assert key == Parent(key) + "/" + "";
      } else {
        ParentMeans(key[..n]);
        if '/' in key {
          assert '/' in key[..n];
          var name: string :| '/' !in name && key[..n] == Parent(key[..n]) + "/" + name;
          assert key == Parent(key) + "/" + (name + [key[n]]);
        }
      }
    }
  }

  /** A playlist protects exactly the keys that its lines name. */
  lemma {:induction false} ReferencedExactly(playlist: string, text: string, key: string)
    ensures key in ReferencedBy(playlist, text) <==>
      exists i :: 0 <= i < |Lines(text)| && LineNames(Lines(text)[i], Parent(playlist), key)
  {
    var lines, dir := Lines(text), Parent(playlist);
    NamesAre(lines, dir, key);
    forall i | 0 <= i < |lines|
      ensures LineNames(lines[i], dir, key) <==> NameIs(Trim(lines[i]), dir, key)
    {
      LineMeans(lines[i], dir, key);
    }
  }

  lemma {:induction false} LineMeans(line: string, dir: string, key: string)
    ensures LineNames(line, dir, key) <==> NameIs(Trim(line), dir, key)
  {
    TrimMeans(line);
    if LineNames(line, dir, key) {
      var t: string :| IsTrimmed(t, line) && NameIs(t, dir, key);
      TrimmedOnce(line, t);
    }
  }

  // ----- The cycle -----

  /** Some playlist of the listing that the cycle reads has a line that names the key. */
  ghost predicate Named(listing: seq<Listed>, objects: map<string, Stored>, unreadable: set<string>, key: string) {
    exists i :: 0 <= i < |listing| && PlaylistNames(listing[i].key, objects, unreadable, key)
  }

  ghost predicate PlaylistNames(
    playlist: string, objects: map<string, Stored>, unreadable: set<string>, key: string)
  {
    && |playlist| >= 10 && playlist[|playlist| - 10..] == "media.m3u8"
    && playlist in objects && playlist !in unreadable
    && exists j :: 0 <= j < |Lines(objects[playlist].body)|
         && LineNames(Lines(objects[playlist].body)[j], Parent(playlist), key)
  }

  lemma {:induction false} NamedMeans(
    listing: seq<Listed>, objects: map<string, Stored>, unreadable: set<string>, key: string)
    ensures key in ReferencedTo(listing, |listing|, objects, unreadable) <==> Named(listing, objects, unreadable, key)
  {
    ReferencedAre(listing, |listing|, objects, unreadable, key);
    forall i | 0 <= i < |listing|
      ensures PlaylistNames(listing[i].key, objects, unreadable, key) <==>
        IsPlaylist(listing[i].key) && listing[i].key in objects && listing[i].key !in unreadable
        && key in ReferencedBy(listing[i].key, objects[listing[i].key].body)
    {
      PlaylistMeans(listing[i].key, objects, unreadable, key);
    }
  }

  lemma {:induction false} PlaylistMeans(
    playlist: string, objects: map<string, Stored>, unreadable: set<string>, key: string)
    ensures PlaylistNames(playlist, objects, unreadable, key) <==>
      IsPlaylist(playlist) && playlist in objects && playlist !in unreadable
      && key in ReferencedBy(playlist, objects[playlist].body)
  {
    if playlist in objects {
      ReferencedExactly(playlist, objects[playlist].body, key);
    }
  }

  /** Whatever is stored and whoever wrote it: an object is gone after a cycle exactly if it was listed with a key in
      `.m4s` that has no `init.mp4` in it, was written longer ago than the retention, no playlist that the cycle read
      names it, and its deletion did not fail. */
  lemma {:induction false} CycleExactly(
    listing: seq<Listed>, objects: map<string, Stored>, unreadable: set<string>, stuck: set<string>, now: int,
    retentionMinutes: nat, key: string)
    requires key in objects
    ensures var referenced := ReferencedTo(listing, |listing|, objects, unreadable);
      key !in objects - (AttemptsTo(listing, |listing|, referenced, now, retentionMinutes) - stuck) <==>
        && |key| >= 4 && key[|key| - 4..] == ".m4s" && !Inside("init.mp4", key)
        && (exists i :: 0 <= i < |listing| && listing[i].key == key
              && now - listing[i].lastModified > retentionMinutes * 60000)
        && !Named(listing, objects, unreadable, key) && key !in stuck
  {
    var referenced := ReferencedTo(listing, |listing|, objects, unreadable);
    AttemptsAre(listing, |listing|, referenced, now, retentionMinutes, key);
    NamedMeans(listing, objects, unreadable, key);
    OccursMeans("init.mp4", key);
  }
}
