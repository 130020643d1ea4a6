/** ISO base media files as trees of boxes: the layout of section 4.2 of ISO/IEC 14496-12 in its compact form
    (32-bit sizes, four-character types), written and parsed. */
module BoxTree {
  import opened Bytes

  // Four-character codes as 32-bit numbers.
  const FTYP := 0x66747970
  const STYP := 0x73747970
  const MOOV := 0x6D6F6F76
  const MVHD := 0x6D766864
  const TRAK := 0x7472616B
  const TKHD := 0x746B6864
  const MDIA := 0x6D646961
  const MDHD := 0x6D646864
  const HDLR := 0x68646C72
  const MINF := 0x6D696E66
  const VMHD := 0x766D6864
  const SMHD := 0x736D6864
  const DINF := 0x64696E66
  const DREF := 0x64726566
  const URL := 0x75726C20
  const STBL := 0x7374626C
  const STSD := 0x73747364
  const STTS := 0x73747473
  const STSC := 0x73747363
  const STSZ := 0x7374737A
  const STCO := 0x7374636F
  const AVC1 := 0x61766331
  const AVCC := 0x61766343
  const MP4A := 0x6D703461
  const ESDS := 0x65736473
  const MVEX := 0x6D766578
  const TREX := 0x74726578
  const MOOF := 0x6D6F6F66
  const MFHD := 0x6D666864
  const TRAF := 0x74726166
  const TFHD := 0x74666864
  const TFDT := 0x74666474
  const TRUN := 0x7472756E
  const MDAT := 0x6D646174

  /** For a box that holds boxes, how many bytes of fields come before them: none in a plain container, version,
      flags and entry count in `dref` and `stsd`, the sample entry fields in `avc1` and `mp4a`. */
  function ChildOffset(kind: nat): Option<nat> {
    if kind == MOOV || kind == TRAK || kind == MDIA || kind == MINF || kind == DINF || kind == STBL
       || kind == MVEX || kind == MOOF || kind == TRAF then Some(0)
    else if kind == DREF || kind == STSD then Some(8)
    else if kind == AVC1 then Some(78)
    else if kind == MP4A then Some(28)
    else None
  }

  /** A box: its type, its own fields (for a leaf, all of its content) and the boxes it holds. */
  datatype Box = Box(kind: nat, fields: seq<byte>, children: seq<Box>)

  function Leaf(kind: nat, content: seq<byte>): Box {
    Box(kind, content, [])
  }

  /** A size, a type and the content. */
  function Framed(kind: nat, content: seq<byte>): (d: seq<byte>)
    ensures |d| == |content| + 8
  {
    U32(|content| + 8) + (U32(kind) + content)
  }

  function Content(b: Box): seq<byte>
    decreases b, 0
  {
    b.fields + WriteAll(b.children)
  }

  function Write(b: Box): seq<byte>
    decreases b, 1
  {
    Framed(b.kind, Content(b))
  }

  function WriteAll(bs: seq<Box>): seq<byte>
    decreases bs, 2
  {
    if bs == [] then [] else Write(bs[0]) + WriteAll(bs[1..])
  }

  /** Only the types that hold boxes have any, behind as many bytes of fields as the type has. */
  predicate Shaped(b: Box)
    decreases b, 1
  {
    && b.kind < TWO_TO_32
    && (match ChildOffset(b.kind) case None => b.children == [] case Some(n) => |b.fields| == n)
    && AllShaped(b.children)
  }

  predicate AllShaped(bs: seq<Box>)
    decreases bs, 2
  {
    bs == [] || (Shaped(bs[0]) && AllShaped(bs[1..]))
  }

  /** Every box size fits its 32-bit field. */
  predicate Fits(b: Box)
    decreases b, 1
  {
    |Write(b)| < TWO_TO_32 && AllFit(b.children)
  }

  predicate AllFit(bs: seq<Box>)
    decreases bs, 2
  {
    bs == [] || (Fits(bs[0]) && AllFit(bs[1..]))
  }

  /** Parses `d` into boxes with no byte left over, at this level or any level below. */
  function Parse(d: seq<byte>): Option<seq<Box>>
    decreases |d|
  {
    if d == [] then Some([])
    else if |d| < 8 then None
    else
      var size, kind := Number(d[..4]), Number(d[4..8]);
      if size < 8 || size > |d| then None
      else
        var content := d[8..size];
        var rest := Parse(d[size..]);
        if rest.None? then None
        else
          match ChildOffset(kind)
          case None => Some([Leaf(kind, content)] + rest.value)
          case Some(n) =>
            if |content| < n then None
            else
              var children := Parse(content[n..]);
              if children.None? then None
              else Some([Box(kind, content[..n], children.value)] + rest.value)
  }

  // ----- Parsing inverts writing -----

  lemma {:induction false} FramedParts(kind: nat, content: seq<byte>, t: seq<byte>)
    requires kind < TWO_TO_32
    ensures var d := Framed(kind, content) + t; var n := |content| + 8;
      && Number(d[..4]) == Wrap32(n) && Number(d[4..8]) == kind
      && d[8..n] == content && d[n..] == t
  {
    var d := Framed(kind, content) + t;
    U32Value(|content| + 8);
    U32Value(kind);
    assert d[..4] == U32(|content| + 8);
    assert d[4..8] == U32(kind);
  }

  lemma {:induction false} ParseInverts(bs: seq<Box>)
    requires AllShaped(bs) && AllFit(bs)
    ensures Parse(WriteAll(bs)) == Some(bs)
    decreases bs
  {
    if bs != [] {
      var b := bs[0];
      ParseInverts(b.children);
      ParseInverts(bs[1..]);
      ParseStep(b, WriteAll(bs[1..]), bs[1..]);
      assert bs == [b] + bs[1..];
    }
  }

  lemma {:induction false} ParseStep(b: Box, t: seq<byte>, rest: seq<Box>)
    requires Shaped(b) && |Write(b)| < TWO_TO_32
    requires Parse(WriteAll(b.children)) == Some(b.children) && Parse(t) == Some(rest)
    ensures Parse(Write(b) + t) == Some([b] + rest)
  {
    var content := Content(b);
    FramedParts(b.kind, content, t);
    match ChildOffset(b.kind)
    case None =>
      assert content == b.fields;
    case Some(n) =>
      assert content[..n] == b.fields && content[n..] == WriteAll(b.children);
  }

  lemma {:induction false} FramedSound(d: seq<byte>)
    requires |d| >= 8 && 8 <= Number(d[..4]) <= |d|
    ensures var n := Number(d[..4]);
      && Framed(Number(d[4..8]), d[8..n]) + d[n..] == d
      && n < TWO_TO_32 && Number(d[4..8]) < TWO_TO_32
  {
    var n, kind := Number(d[..4]), Number(d[4..8]);
    assert n < TWO_TO_32 && kind < TWO_TO_32 && U32(n) == d[..4] && U32(kind) == d[4..8] by {
      Pow256Values();
      DigitsOfNumber(d[..4]);
      DigitsOfNumber(d[4..8]);
    }
    assert |d[8..n]| + 8 == n;
    assert d == d[..4] + (d[4..8] + d[8..n]) + d[n..];
  }

  /** What parses is a tree's own layout: writing it again gives back every byte. */
  lemma {:induction false} ParseSound(d: seq<byte>)
    requires Parse(d).Some?
    ensures AllShaped(Parse(d).value) && AllFit(Parse(d).value) && WriteAll(Parse(d).value) == d
    decreases |d|
  {
    if d != [] {
      var bs, n := Parse(d).value, Number(d[..4]);
      var content := d[8..n];
      ParseSound(d[n..]);
      assert Content(bs[0]) == content && Shaped(bs[0]) && AllFit(bs[0].children) by {
        FramedSound(d);
        var offset := ChildOffset(Number(d[4..8]));
        if offset.Some? {
          ParseSound(content[offset.value..]);
          assert content[..offset.value] + content[offset.value..] == content;
        } else {
          assert content + [] == content;
        }
      }
      SoundStep(d, bs);
    }
  }

  lemma {:induction false} SoundStep(d: seq<byte>, bs: seq<Box>)
    requires bs != [] && |d| >= 8 && 8 <= Number(d[..4]) <= |d|
    requires Content(bs[0]) == d[8..Number(d[..4])] && bs[0].kind == Number(d[4..8])
    requires Shaped(bs[0]) && AllFit(bs[0].children)
    requires AllShaped(bs[1..]) && AllFit(bs[1..]) && WriteAll(bs[1..]) == d[Number(d[..4])..]
    ensures AllShaped(bs) && AllFit(bs) && WriteAll(bs) == d
  {
    FramedSound(d);
  }

  /** A tree survives being written and parsed exactly when each of its boxes fits its size field. */
  lemma {:induction false} TreeRoundTrip(bs: seq<Box>)
    requires AllShaped(bs)
    ensures Parse(WriteAll(bs)) == Some(bs) <==> AllFit(bs)
  {
    if AllFit(bs) {
      ParseInverts(bs);
    } else if Parse(WriteAll(bs)) == Some(bs) {
      ParseSound(WriteAll(bs));
    }
  }

  // ----- Lists of boxes -----

  /** Boxes inside a box are smaller than it, so a tree fits if its outermost box does. */
  lemma {:induction false} SmallFits(bs: seq<Box>)
    requires |WriteAll(bs)| < TWO_TO_32
    ensures AllFit(bs)
    decreases bs
  {
    if bs != [] {
      assert |WriteAll(bs)| == |Content(bs[0])| + 8 + |WriteAll(bs[1..])|;
      SmallFits(bs[0].children);
      SmallFits(bs[1..]);
    }
  }

  lemma {:induction false} FitsOutermost(b: Box)
    ensures Fits(b) <==> |Write(b)| < TWO_TO_32
  {
    if |Write(b)| < TWO_TO_32 {
      SmallFits(b.children);
    }
  }

  lemma {:induction false} WriteAllConcat(xs: seq<Box>, ys: seq<Box>)
    ensures WriteAll(xs + ys) == WriteAll(xs) + WriteAll(ys)
    decreases |xs|
  {
    if xs == [] {
      assert xs + ys == ys;
    } else {
      assert (xs + ys)[1..] == xs[1..] + ys;
      WriteAllConcat(xs[1..], ys);
    }
  }

  lemma {:induction false} WriteOne(b: Box)
    ensures WriteAll([b]) == Write(b)
  {
    assert [b][1..] == [];
  }

  lemma {:induction false} WriteAllAppend(xs: seq<Box>, b: Box)
    ensures WriteAll(xs + [b]) == WriteAll(xs) + Write(b)
  {
    WriteAllConcat(xs, [b]);
    WriteOne(b);
  }

  lemma {:induction false} WriteTwo(a: Box, b: Box)
    ensures WriteAll([a, b]) == Write(a) + Write(b)
  {
    WriteOne(a);
    WriteAllAppend([a], b);
    assert [a, b] == [a] + [b];
  }

  lemma {:induction false} WriteThree(a: Box, b: Box, c: Box)
    ensures WriteAll([a, b, c]) == Write(a) + Write(b) + Write(c)
  {
    WriteTwo(a, b);
    WriteAllAppend([a, b], c);
    assert [a, b, c] == [a, b] + [c];
  }

  lemma {:induction false} WriteFive(a: Box, b: Box, c: Box, d: Box, e: Box)
    ensures WriteAll([a, b, c, d, e]) == Write(a) + Write(b) + Write(c) + Write(d) + Write(e)
  {
    WriteThree(a, b, c);
    WriteAllAppend([a, b, c], d);
    WriteAllAppend([a, b, c, d], e);
    assert [a, b, c, d] == [a, b, c] + [d] && [a, b, c, d, e] == [a, b, c, d] + [e];
  }

  lemma {:induction false} LeafWrite(kind: nat, content: seq<byte>)
    ensures Write(Leaf(kind, content)) == Framed(kind, content)
  {
    assert Content(Leaf(kind, content)) == content + [];
    assert content + [] == content;
  }

  lemma {:induction false} ContainerWrite(kind: nat, children: seq<Box>)
    ensures Write(Box(kind, [], children)) == Framed(kind, WriteAll(children))
  {
    assert Content(Box(kind, [], children)) == [] + WriteAll(children);
    assert [] + WriteAll(children) == WriteAll(children);
  }

  lemma {:induction false} LeafShaped(kind: nat, content: seq<byte>)
    requires kind < TWO_TO_32 && ChildOffset(kind) == None
    ensures Shaped(Leaf(kind, content))
  {
  }

  lemma {:induction false} ChildlessShaped(b: Box)
    requires b.kind < TWO_TO_32 && ChildOffset(b.kind) == None && b.children == []
    ensures Shaped(b)
  {
  }

  lemma {:induction false} NodeShaped(kind: nat, fields: seq<byte>, children: seq<Box>)
    requires kind < TWO_TO_32 && ChildOffset(kind) == Some(|fields|)
    requires forall i :: 0 <= i < |children| ==> Shaped(children[i])
    ensures Shaped(Box(kind, fields, children))
  {
    ShapedList(children);
  }

  lemma {:induction false} ShapedList(bs: seq<Box>)
    requires forall i :: 0 <= i < |bs| ==> Shaped(bs[i])
    ensures AllShaped(bs)
  {
    if bs != [] {
      ShapedList(bs[1..]);
    }
  }
}
