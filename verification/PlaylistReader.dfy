/** A reader of media playlists, by the tags of section 4.3 of RFC 8216: what it finds in a generated text is what the
    text was generated from. */
module PlaylistReader {
  import opened Bytes
  import opened Playlist
  import opened Cleanup

  const VERSION := "#EXT-X-VERSION:"
  const TARGET := "#EXT-X-TARGETDURATION:"
  const SEQUENCE := "#EXT-X-MEDIA-SEQUENCE:"
  const TYPE := "#EXT-X-PLAYLIST-TYPE:"
  const MAP := "#EXT-X-MAP:URI="
  const DATE := "#EXT-X-PROGRAM-DATE-TIME:"
  const DURATION := "#EXTINF:"

  /** What comes behind the tag in the first line that has it. */
  function FirstValue(lines: seq<string>, tag: string): Option<string> {
    if lines == [] then None
    else if tag <= lines[0] then Some(lines[0][|tag|..])
    else FirstValue(lines[1..], tag)
  }

  function BeforeComma(s: string): string {
    s[..Find(s, ',')]
  }

  /** A segment as the playlist lists it. */
  datatype Item = Item(date: Option<string>, duration: Option<string>, name: string)

  /** The segments listed, each with the date and the duration that come before its name. */
  function Items(lines: seq<string>, date: Option<string>, duration: Option<string>): seq<Item> {
    if lines == [] then []
    else
      var line, rest := lines[0], lines[1..];
      if DATE <= line then Items(rest, Some(line[|DATE|..]), duration)
      else if DURATION <= line then Items(rest, date, Some(BeforeComma(line[|DURATION|..])))
      else if line == "" || line[0] == '#' then Items(rest, date, duration)
      else [Item(date, duration, line)] + Items(rest, None, None)
  }

  function ItemsOf(segments: seq<PlaylistSegment>): seq<Item> {
    if segments == [] then []
    else [Item(segments[0].date, Some(segments[0].shown), segments[0].filename)] + ItemsOf(segments[1..])
  }

  // ----- Tags -----

  lemma {:induction false} Apart(line: string, tag: string, i: nat)
    requires i < |line| && i < |tag| && line[i] != tag[i]
    ensures !(tag <= line)
  {
  }

  lemma {:induction false} TagValue(tag: string, value: string)
    ensures tag <= tag + value && (tag + value)[|tag|..] == value
  {
  }

  lemma {:induction false} ValueAt(lines: seq<string>, i: nat, tag: string, value: string)
    requires i < |lines| && lines[i] == tag + value && forall j :: 0 <= j < i ==> !(tag <= lines[j])
    ensures FirstValue(lines, tag) == Some(value)
  {
    if i == 0 {
      TagValue(tag, value);
    } else {
      ValueAt(lines[1..], i - 1, tag, value);
    }
  }

  lemma {:induction false} NoValue(lines: seq<string>, tag: string)
    requires forall j :: 0 <= j < |lines| ==> !(tag <= lines[j])
    ensures FirstValue(lines, tag) == None
  {
    if lines != [] {
      NoValue(lines[1..], tag);
    }
  }

  lemma {:induction false} ValueBehind(a: seq<string>, b: seq<string>, tag: string)
    ensures FirstValue(a + b, tag) == if FirstValue(a, tag).Some? then FirstValue(a, tag) else FirstValue(b, tag)
  {
    if a == [] {
      assert a + b == b;
    } else {
      assert (a + b)[1..] == a[1..] + b;
      ValueBehind(a[1..], b, tag);
    }
  }

  /** The first lines of a playlist and the tags in them. */
  lemma {:induction false} HeaderValues(version: string, target: string, sequence: string, kind: seq<string>)
    requires kind == [] || kind == [TYPE + "VOD"]
    ensures var lines := ["#EXTM3U", VERSION + version, TARGET + target]
                         + (kind + [SEQUENCE + sequence, MAP + "\"init.mp4\"", ""]);
      && FirstValue(lines, VERSION) == Some(version) && FirstValue(lines, TARGET) == Some(target)
      && FirstValue(lines, SEQUENCE) == Some(sequence) && FirstValue(lines, MAP) == Some("\"init.mp4\"")
      && FirstValue(lines, TYPE) == (if kind == [] then None else Some("VOD"))
  {
    var top, rest := ["#EXTM3U", VERSION + version, TARGET + target], [SEQUENCE + sequence, MAP + "\"init.mp4\"", ""];
    TopValues(version, target);
    RestValues(sequence);
    forall tag | tag == VERSION || tag == TARGET || tag == SEQUENCE || tag == MAP || tag == TYPE
      ensures FirstValue(top + (kind + rest), tag) ==
        if FirstValue(top, tag).Some? then FirstValue(top, tag)
        else if FirstValue(kind, tag).Some? then FirstValue(kind, tag) else FirstValue(rest, tag)
    {
      ValueBehind(top, kind + rest, tag);
      ValueBehind(kind, rest, tag);
    }
    KindValues(kind);
  }

  lemma {:induction false} KindValues(kind: seq<string>)
    requires kind == [] || kind == [TYPE + "VOD"]
    ensures FirstValue(kind, TYPE) == if kind == [] then None else Some("VOD")
    ensures FirstValue(kind, SEQUENCE).None? && FirstValue(kind, MAP).None?
  {
    if kind != [] {
      ValueAt(kind, 0, TYPE, "VOD");
      assert kind[0][7] == 'P' && SEQUENCE[7] == 'M' && MAP[7] == 'M';
      Apart(kind[0], SEQUENCE, 7);
      Apart(kind[0], MAP, 7);
      NoValue(kind, SEQUENCE);
      NoValue(kind, MAP);
    }
  }

  lemma {:induction false} ValueOfThree(a: string, b: string, c: string, tag: string)
    ensures FirstValue([a, b, c], tag) ==
      if tag <= a then Some(a[|tag|..]) else if tag <= b then Some(b[|tag|..])
      else if tag <= c then Some(c[|tag|..]) else None
  {
    assert [a, b, c][1..] == [b, c] && [b, c][1..] == [c];
    NoValue([], tag);
    var none: seq<string> := [];
    assert [c][1..] == none;
    assert FirstValue([c], tag) == if tag <= c then Some(c[|tag|..]) else None;
    assert FirstValue([b, c], tag) == if tag <= b then Some(b[|tag|..]) else FirstValue([c], tag);
  }

  lemma {:induction false} TopValues(version: string, target: string)
    ensures var top := ["#EXTM3U", VERSION + version, TARGET + target];
      && FirstValue(top, VERSION) == Some(version) && FirstValue(top, TARGET) == Some(target)
      && FirstValue(top, SEQUENCE).None? && FirstValue(top, MAP).None? && FirstValue(top, TYPE).None?
  {
    TopValue(version, target, VERSION);
    TopValue(version, target, TARGET);
    TopValue(version, target, SEQUENCE);
    TopValue(version, target, MAP);
    TopValue(version, target, TYPE);
    TagValue(VERSION, version);
    TagValue(TARGET, target);
  }

  lemma {:induction false} TopValue(version: string, target: string, tag: string)
    requires tag == VERSION || tag == TARGET || (|tag| > 7 && tag[4] == '-' && tag[7] != 'V' && tag[7] != 'T')
    ensures FirstValue(["#EXTM3U", VERSION + version, TARGET + target], tag) ==
      if tag == VERSION then Some((VERSION + version)[|VERSION|..])
      else if tag == TARGET then Some((TARGET + target)[|TARGET|..]) else None
  {
    var a, b, c := "#EXTM3U", VERSION + version, TARGET + target;
    assert a[4] == 'M' && b[7] == 'V' && c[7] == 'T' && VERSION[4] == '-' && TARGET[4] == '-';
    ValueOfThree(a, b, c, tag);
    Apart(a, tag, 4);
    if tag == VERSION {
      TagValue(VERSION, version);
    } else {
      assert tag[7] != 'V';
      Apart(b, tag, 7);
      if tag == TARGET {
        TagValue(TARGET, target);
      } else {
        Apart(c, tag, 7);
      }
    }
  }

  lemma {:induction false} RestValues(sequence: string)
    ensures var rest := [SEQUENCE + sequence, MAP + "\"init.mp4\"", ""];
      && FirstValue(rest, SEQUENCE) == Some(sequence) && FirstValue(rest, MAP) == Some("\"init.mp4\"")
      && FirstValue(rest, TYPE).None?
  {
    var a, b := SEQUENCE + sequence, MAP + "\"init.mp4\"";
    var rest := [a, b, ""];
    assert a[8] == 'E' && MAP[8] == 'A' && a[7] == 'M' && b[7] == 'M' && TYPE[7] == 'P';
    ValueAt(rest, 0, SEQUENCE, sequence);
    ValueAt(rest, 1, MAP, "\"init.mp4\"");
    NoValue(rest, TYPE);
  }

  // ----- Segments -----

  /** A line that says nothing about segments. */
  predicate Passed(line: string) {
    (line == "" || line[0] == '#') && !(DATE <= line) && !(DURATION <= line)
  }

  lemma {:induction false} PassedTag(line: string)
    requires |line| > 4 && line[0] == '#' && line[4] != 'I' && (|line| < 9 || line[7] != 'P' || line[8] != 'R')
    ensures Passed(line)
  {
    assert DURATION[4] == 'I' && DATE[7] == 'P' && DATE[8] == 'R';
  }

  lemma {:induction false} ItemsSilent(lines: seq<string>, more: seq<string>)
    requires forall i :: 0 <= i < |lines| ==> Passed(lines[i])
    ensures Items(lines + more, None, None) == Items(more, None, None)
  {
    if lines == [] {
      assert lines + more == more;
    } else {
      assert (lines + more)[1..] == lines[1..] + more;
      ItemsSilent(lines[1..], more);
    }
  }

  lemma {:induction false} CommaFound(shown: string)
    requires ',' !in shown
    ensures BeforeComma(shown + ",") == shown
  {
    var s := shown + ",";
    assert s[|shown|] == ',';
    assert Find(s, ',') == |shown|;
    assert s[..|shown|] == shown;
  }

  lemma {:induction false} InfoLine(shown: string)
    requires ',' !in shown
    ensures var line := DURATION + shown + ",";
      DURATION <= line && !(DATE <= line) && BeforeComma(line[|DURATION|..]) == shown
  {
    var line := DURATION + shown + ",";
    assert line == DURATION + (shown + ",");
    TagValue(DURATION, shown + ",");
    CommaFound(shown);
    assert line[4] == 'I' && DATE[4] == '-';
    Apart(line, DATE, 4);
  }

  lemma {:induction false} NameLine(n: nat)
    ensures var line := SegmentFilename(n);
      line != "" && line[0] != '#' && !(DATE <= line) && !(DURATION <= line)
  {
    FilenameNames(n);
    assert DATE[0] == '#' && DURATION[0] == '#';
  }

  lemma {:induction false} PairItem(
    info: string, name: string, date: Option<string>, shown: string, more: seq<string>)
    requires DURATION <= info && !(DATE <= info) && BeforeComma(info[|DURATION|..]) == shown
    requires name != "" && name[0] != '#' && !(DATE <= name) && !(DURATION <= name)
    ensures Items([info, name] + more, date, None) == [Item(date, Some(shown), name)] + Items(more, None, None)
  {
    var lines := [info, name] + more;
    assert lines[1..] == [name] + more && ([name] + more)[1..] == more;
  }

  lemma {:induction false} OneItem(s: PlaylistSegment, more: seq<string>)
    requires Printable(s) && ',' !in s.shown
    ensures Items(SegmentLines(s) + more, None, None)
         == [Item(s.date, Some(s.shown), s.filename)] + Items(more, None, None)
  {
    var pair := [DURATION + s.shown + ",", s.filename];
    InfoLine(s.shown);
    NameLine(s.sequence);
    PairItem(DURATION + s.shown + ",", s.filename, s.date, s.shown, more);
    match s.date
    case None =>
      assert SegmentLines(s) + more == pair + more;
    case Some(date) =>
      var line := DATE + date;
      TagValue(DATE, date);
      assert SegmentLines(s) + more == [line] + (pair + more);
      assert ([line] + (pair + more))[1..] == pair + more;
  }

  lemma {:induction false} BodyItems(segments: seq<PlaylistSegment>, more: seq<string>)
    requires AllPrintable(segments) && forall i :: 0 <= i < |segments| ==> ',' !in segments[i].shown
    ensures Items(BodyLines(segments) + more, None, None) == ItemsOf(segments) + Items(more, None, None)
  {
    if segments == [] {
      var last := Items(more, None, None);
      assert BodyLines(segments) + more == more && ItemsOf(segments) + last == last;
    } else {
      var rest := BodyLines(segments[1..]) + more;
      BodyItems(segments[1..], more);
      OneItem(segments[0], rest);
      Regrouped(SegmentLines(segments[0]), BodyLines(segments[1..]), more,
                [Item(segments[0].date, Some(segments[0].shown), segments[0].filename)], ItemsOf(segments[1..]),
                Items(more, None, None));
    }
  }

  lemma {:induction false} Regrouped(
    a: seq<string>, b: seq<string>, c: seq<string>, x: seq<Item>, y: seq<Item>, z: seq<Item>)
    ensures a + b + c == a + (b + c) && x + y + z == x + (y + z)
  {
  }

  // ----- The whole text -----

  lemma {:induction false} PublishedLines(p: Published)
    requires AllPrintable(p.segments)
    ensures Lines(PublishedText(p)) == PlaylistLines(p.segments, p.hlsVersion, p.isVod, p.isFinished)
  {
    HeaderSilent(p.segments, p.hlsVersion, p.isVod);
    BodyNames(p.segments);
    EndSilent(p.isFinished);
    ThreeParts(Header(p.segments, p.hlsVersion, p.isVod), BodyLines(p.segments), EndLines(p.isFinished));
  }

  lemma {:induction false} ThreeParts(head: seq<string>, body: seq<string>, end: seq<string>)
    requires forall i :: 0 <= i < |head| ==> SingleLine(head[i])
    requires forall i :: 0 <= i < |body| ==> SingleLine(body[i])
    requires forall i :: 0 <= i < |end| ==> SingleLine(end[i])
    ensures Lines(Unlines(head + (body + end))) == head + (body + end)
  {
    LinesInvertUnlines(head + (body + end));
  }

  lemma {:induction false} HeaderItems(segments: seq<PlaylistSegment>, hlsVersion: nat, isVod: bool)
    ensures var lines := Header(segments, hlsVersion, isVod); forall i :: 0 <= i < |lines| ==> Passed(lines[i])
  {
    var version, target := Padded(hlsVersion, 1), Padded(TargetDuration(segments), 1);
    var sequence := Padded(MediaSequence(segments), 1);
    HeaderShape(segments, hlsVersion, isVod, version, target, sequence);
    var a, b, c := "#EXTM3U", VERSION + version, TARGET + target;
    var d, e, f := TYPE + "VOD", SEQUENCE + sequence, MAP + "\"init.mp4\"";
    PassedTag(a);
    PassedAll(b, c, d, e, f);
    AllPassed(a, b, c, if isVod then [d] else [], e, f);
  }

  lemma {:induction false} PassedAll(b: string, c: string, d: string, e: string, f: string)
    requires VERSION <= b && TARGET <= c && TYPE <= d && SEQUENCE <= e && MAP <= f
    ensures Passed(b) && Passed(c) && Passed(d) && Passed(e) && Passed(f)
  {
    assert b[7] == VERSION[7] == 'V' && c[7] == TARGET[7] == 'T' && d[8] == TYPE[8] == 'L';
    assert e[7] == SEQUENCE[7] == 'M' && f[7] == MAP[7] == 'M';
    PassedTag(b);
    PassedTag(c);
    PassedTag(d);
    PassedTag(e);
    PassedTag(f);
  }

  lemma {:induction false} AllPassed(a: string, b: string, c: string, kind: seq<string>, e: string, f: string)
    requires Passed(a) && Passed(b) && Passed(c) && Passed(e) && Passed(f)
    requires forall i :: 0 <= i < |kind| ==> Passed(kind[i])
    ensures var lines := [a, b, c] + (kind + [e, f, ""]); forall i :: 0 <= i < |lines| ==> Passed(lines[i])
  {
  }

  lemma {:induction false} NoTypeBehind(segments: seq<PlaylistSegment>, isFinished: bool)
    requires AllPrintable(segments)
    ensures FirstValue(BodyLines(segments) + EndLines(isFinished), TYPE).None?
  {
    ValueBehind(BodyLines(segments), EndLines(isFinished), TYPE);
    BodyNoType(segments);
    if isFinished {
      Apart("#EXT-X-ENDLIST", TYPE, 7);
    }
    NoValue(EndLines(isFinished), TYPE);
  }

  lemma {:induction false} BodyNoType(segments: seq<PlaylistSegment>)
    requires AllPrintable(segments)
    ensures FirstValue(BodyLines(segments), TYPE).None?
  {
    if segments != [] {
      var s := segments[0];
      BodyNoType(segments[1..]);
      ValueBehind(SegmentLines(s), BodyLines(segments[1..]), TYPE);
      SegmentNoType(s);
    }
  }

  lemma {:induction false} SegmentNoType(s: PlaylistSegment)
    requires Printable(s)
    ensures FirstValue(SegmentLines(s), TYPE).None?
  {
    var info := DURATION + s.shown + ",";
    assert info[4] == 'I' && TYPE[4] == '-' && TYPE[8] == 'L' && TYPE[0] == '#';
    NameLine(s.sequence);
    if s.date.Some? {
      assert (DATE + s.date.value)[8] == 'R';
    }
    NoValue(SegmentLines(s), TYPE);
  }

  /** A reader finds in a generated playlist its version, its target duration, which is the least positive number of
      seconds that no listed segment exceeds, the number of its first segment, its type, and its init segment. */
  lemma {:induction false} HeaderReadBack(p: Published, bound: int)
    requires AllPrintable(p.segments)
    requires forall i :: 0 <= i < |p.segments| ==> p.segments[i].ticks <= 0xFFFF_FFFF * 90000
    ensures var lines := Lines(PublishedText(p));
      var version, target, first := FirstValue(lines, VERSION), FirstValue(lines, TARGET), FirstValue(lines, SEQUENCE);
      && lines != [] && lines[0] == "#EXTM3U"
      && version.Some? && ValueOf(version.value) == p.hlsVersion
      && target.Some?
      && (bound >= ValueOf(target.value) <==>
            bound >= 1 && forall i :: 0 <= i < |p.segments| ==> p.segments[i].ticks <= bound * 90000)
      && first.Some? && ValueOf(first.value) == (if p.segments == [] then 0 else p.segments[0].sequence)
      && FirstValue(lines, TYPE) == (if p.isVod then Some("VOD") else None)
      && FirstValue(lines, MAP) == Some("\"init.mp4\"")
  {
    var version, target := Padded(p.hlsVersion, 1), Padded(TargetDuration(p.segments), 1);
    var sequence := Padded(MediaSequence(p.segments), 1);
    var head, rest := Header(p.segments, p.hlsVersion, p.isVod), BodyLines(p.segments) + EndLines(p.isFinished);
    PublishedLines(p);
    PaddedReadsBack(p.hlsVersion, 1);
    PaddedReadsBack(TargetDuration(p.segments), 1);
    PaddedReadsBack(MediaSequence(p.segments), 1);
    TargetDurationLeast(p.segments, bound);
    HeaderShape(p.segments, p.hlsVersion, p.isVod, version, target, sequence);
    NoTypeBehind(p.segments, p.isFinished);
    ValuesInFront(head, rest, version, target, sequence, p.isVod);
  }

  /** Whatever is listed, the reader finds the init segment's name. */
  lemma {:induction false} MapRead(p: Published)
    requires AllPrintable(p.segments)
    ensures FirstValue(Lines(PublishedText(p)), MAP) == Some("\"init.mp4\"")
  {
    var version, target := Padded(p.hlsVersion, 1), Padded(TargetDuration(p.segments), 1);
    var sequence := Padded(MediaSequence(p.segments), 1);
    var head, rest := Header(p.segments, p.hlsVersion, p.isVod), BodyLines(p.segments) + EndLines(p.isFinished);
    PublishedLines(p);
    HeaderShape(p.segments, p.hlsVersion, p.isVod, version, target, sequence);
    NoTypeBehind(p.segments, p.isFinished);
    ValuesInFront(head, rest, version, target, sequence, p.isVod);
  }

  lemma {:induction false} HeaderShape(
    segments: seq<PlaylistSegment>, hlsVersion: nat, isVod: bool, version: string, target: string, sequence: string)
    requires version == Padded(hlsVersion, 1) && target == Padded(TargetDuration(segments), 1)
    requires sequence == Padded(MediaSequence(segments), 1)
    ensures Header(segments, hlsVersion, isVod)
         == ["#EXTM3U", VERSION + version, TARGET + target]
            + ((if isVod then [TYPE + "VOD"] else []) + [SEQUENCE + sequence, MAP + "\"init.mp4\"", ""])
  {
    assert TYPE + "VOD" == "#EXT-X-PLAYLIST-TYPE:VOD" && MAP + "\"init.mp4\"" == "#EXT-X-MAP:URI=\"init.mp4\"";
  }

  lemma {:induction false} ValuesInFront(
    head: seq<string>, rest: seq<string>, version: string, target: string, sequence: string, isVod: bool)
    requires head == ["#EXTM3U", VERSION + version, TARGET + target]
                     + ((if isVod then [TYPE + "VOD"] else []) + [SEQUENCE + sequence, MAP + "\"init.mp4\"", ""])
    requires FirstValue(rest, TYPE).None?
    ensures var lines := head + rest;
      && lines != [] && lines[0] == "#EXTM3U"
      && FirstValue(lines, VERSION) == Some(version) && FirstValue(lines, TARGET) == Some(target)
      && FirstValue(lines, SEQUENCE) == Some(sequence) && FirstValue(lines, MAP) == Some("\"init.mp4\"")
      && FirstValue(lines, TYPE) == (if isVod then Some("VOD") else None)
  {
    HeaderValues(version, target, sequence, if isVod then [TYPE + "VOD"] else []);
    ValueBehind(head, rest, VERSION);
    ValueBehind(head, rest, TARGET);
    ValueBehind(head, rest, SEQUENCE);
    ValueBehind(head, rest, MAP);
    ValueBehind(head, rest, TYPE);
  }

  /** And it finds the listed segments, in order, each with its date, its duration and its file name. */
  lemma {:induction false} ItemsReadBack(p: Published)
    requires AllPrintable(p.segments) && forall i :: 0 <= i < |p.segments| ==> ',' !in p.segments[i].shown
    ensures Items(Lines(PublishedText(p)), None, None) == ItemsOf(p.segments)
  {
    PublishedLines(p);
    HeaderItems(p.segments, p.hlsVersion, p.isVod);
    ItemsSilent(Header(p.segments, p.hlsVersion, p.isVod), BodyLines(p.segments) + EndLines(p.isFinished));
    BodyItems(p.segments, EndLines(p.isFinished));
    EndItems(p.isFinished);
    assert ItemsOf(p.segments) + [] == ItemsOf(p.segments);
  }

  lemma {:induction false} EndItems(isFinished: bool)
    ensures Items(EndLines(isFinished), None, None) == []
  {
    if isFinished {
      var line := "#EXT-X-ENDLIST";
      assert line[7] == 'E' && DATE[7] == 'P' && line[4] == '-' && DURATION[4] == 'I';
      var none: seq<string> := [];
      assert [line][1..] == none;
    }
  }

  // ----- File names -----

  lemma {:induction false} PaddedTight(n: nat, width: nat)
    ensures |Padded(n, width)| > width && |Padded(n, width)| > 1 ==> Padded(n, width)[0] != '0'
    decreases n + width
  {
    if !(n < 10 && width <= 1) {
      var w := if width > 0 then width - 1 else 0;
      PaddedTight(n / 10, w);
      PaddedReadsBack(n / 10, w);
      if |Padded(n / 10, w)| == 1 {
        OneDigit(n / 10, w);
      }
    }
  }

  lemma {:induction false} OneDigit(n: nat, width: nat)
    requires |Padded(n, width)| == 1
    ensures n < 10 && Padded(n, width) == [DigitOf(n)]
  {
    if !(n < 10 && width <= 1) {
      PaddedReadsBack(n / 10, if width > 0 then width - 1 else 0);
    }
  }

  /** The file name of a segment: its number in decimal, with zeros in front up to six digits and no further, and
      `.m4s`. */
  lemma {:induction false} FilenameFormat(n: nat) returns (digits: string)
    ensures SegmentFilename(n) == digits + ".m4s"
    ensures AllDigits(digits) && ValueOf(digits) == n && |digits| >= 6 && (|digits| > 6 ==> digits[0] != '0')
  {
    digits := Padded(n, 6);
    PaddedReadsBack(n, 6);
    PaddedTight(n, 6);
  }
}
