/** The descriptors inside `esds`, as a reader of section 8.3.3 of ISO/IEC 14496-1 takes them apart: each has a
    tag and a length of up to four bytes, seven bits a byte, whose high bits say that more length bytes follow. */
module Descriptors {
  import opened Bytes
  import Fmp4

  datatype Descriptor = Descriptor(tag: byte, fields: seq<byte>, children: seq<Descriptor>)

  const ES_TAG: byte := 3
  const DECODER_CONFIG_TAG: byte := 4
  const DECODER_INFO_TAG: byte := 5
  const SL_CONFIG_TAG: byte := 6

  /** How many bytes of fields precede the descriptors inside a descriptor that has any. */
  function ChildOffset(tag: byte): Option<nat> {
    if tag == ES_TAG then Some(3) else if tag == DECODER_CONFIG_TAG then Some(13) else None
  }

  /** A length of up to `n` bytes, of which `acc` is read already, and what follows it. */
  function ReadLength(d: seq<byte>, n: nat, acc: nat): Option<(nat, seq<byte>)>
    decreases n
  {
    if n == 0 || d == [] then None
    else if d[0] >= 0x80 then ReadLength(d[1..], n - 1, 0x80 * acc + (d[0] - 0x80))
    else Some((0x80 * acc + d[0], d[1..]))
  }

  lemma {:induction false} LengthShortens(d: seq<byte>, n: nat, acc: nat)
    requires ReadLength(d, n, acc).Some?
    ensures |ReadLength(d, n, acc).value.1| < |d|
    decreases n
  {
    if d[0] >= 0x80 {
      LengthShortens(d[1..], n - 1, 0x80 * acc + (d[0] - 0x80));
    }
  }

  /** Parses `d` into descriptors with no byte left over at any level. */
  function Parse(d: seq<byte>): Option<seq<Descriptor>>
    decreases |d|
  {
    if d == [] then Some([])
    else
      var length := ReadLength(d[1..], 4, 0);
      if length.None? then None
      else
        LengthShortens(d[1..], 4, 0);
        var (n, body) := length.value;
        if n > |body| then None
        else
          var rest := Parse(body[n..]);
          var offset := ChildOffset(d[0]);
          if rest.None? then None
          else if offset.None? then Some([Descriptor(d[0], body[..n], [])] + rest.value)
          else if n < offset.value then None
          else
            var children := Parse(body[offset.value..n]);
            if children.None? then None
            else Some([Descriptor(d[0], body[..offset.value], children.value)] + rest.value)
  }

  /** The descriptors the muxer means to write for an AudioSpecificConfig. */
  function Intended(asc: seq<byte>): Descriptor {
    Descriptor(ES_TAG, [0, 1, 0],
               [Descriptor(DECODER_CONFIG_TAG, Fmp4.DecoderConfigFields(),
                           [Descriptor(DECODER_INFO_TAG, asc, [])]),
                Descriptor(SL_CONFIG_TAG, [2], [])])
  }

  /** A descriptor with a one-byte length, taken apart. */
  lemma {:induction false} OneByteLength(tag: byte, content: seq<byte>, t: seq<byte>)
    requires |content| < 0x80
    ensures var d := Fmp4.Descriptor(tag, content) + t;
      d != [] && d[0] == tag && ReadLength(d[1..], 4, 0) == Some((|content|, content + t))
  {
    var d := Fmp4.Descriptor(tag, content) + t;
    var n := |content|;
    assert d[1..] == [n] + (content + t);
    assert ([n] + (content + t))[1..] == content + t;
  }

  lemma {:induction false} ParseFrom(
    d: seq<byte>, n: nat, body: seq<byte>, rest: seq<Descriptor>, children: seq<Descriptor>)
    requires d != [] && ReadLength(d[1..], 4, 0) == Some((n, body)) && n <= |body|
    requires Parse(body[n..]) == Some(rest)
    requires ChildOffset(d[0]).Some? ==>
      ChildOffset(d[0]).value <= n && Parse(body[ChildOffset(d[0]).value..n]) == Some(children)
    ensures Parse(d) == Some([if ChildOffset(d[0]).None? then Descriptor(d[0], body[..n], [])
                              else Descriptor(d[0], body[..ChildOffset(d[0]).value], children)] + rest)
  {
  }

  /** A short descriptor without descriptors inside is read as it was written. */
  lemma {:induction false} LeafRead(tag: byte, content: seq<byte>, t: seq<byte>, rest: seq<Descriptor>)
    requires |content| < 0x80 && ChildOffset(tag).None? && Parse(t) == Some(rest)
    ensures Parse(Fmp4.Descriptor(tag, content) + t) == Some([Descriptor(tag, content, [])] + rest)
  {
    OneByteLength(tag, content, t);
    var body := content + t;
    assert body[..|content|] == content && body[|content|..] == t;
    ParseFrom(Fmp4.Descriptor(tag, content) + t, |content|, body, rest, []);
  }

  /** So is one with descriptors inside. */
  lemma {:induction false} NodeRead(
    tag: byte, fields: seq<byte>, inner: seq<byte>, t: seq<byte>, children: seq<Descriptor>, rest: seq<Descriptor>)
    requires |fields + inner| < 0x80 && ChildOffset(tag) == Some(|fields|)
    requires Parse(inner) == Some(children) && Parse(t) == Some(rest)
    ensures Parse(Fmp4.Descriptor(tag, fields + inner) + t) == Some([Descriptor(tag, fields, children)] + rest)
  {
    var content := fields + inner;
    OneByteLength(tag, content, t);
    var body := content + t;
    assert body[|content|..] == t && body[|fields|..|content|] == inner && body[..|fields|] == fields;
    ParseFrom(Fmp4.Descriptor(tag, content) + t, |content|, body, rest, children);
  }

  lemma {:induction false} NothingFollows(d: seq<byte>, x: Descriptor)
    requires Parse(d + []) == Some([x] + [])
    ensures Parse(d) == Some([x])
  {
    assert d + [] == d && [x] + [] == [x];
  }

  lemma {:induction false} ConfigRead(asc: seq<byte>)
    requires |asc| <= 104
    ensures Parse(Fmp4.Descriptor(DECODER_CONFIG_TAG, Fmp4.DecoderConfig(asc)) + Fmp4.Descriptor(SL_CONFIG_TAG, [2]))
         == Some(Intended(asc).children)
  {
    var info, sl := Descriptor(DECODER_INFO_TAG, asc, []), Descriptor(SL_CONFIG_TAG, [2], []);
    LeafRead(DECODER_INFO_TAG, asc, [], []);
    NothingFollows(Fmp4.Descriptor(DECODER_INFO_TAG, asc), info);
    LeafRead(SL_CONFIG_TAG, [2], [], []);
    NothingFollows(Fmp4.Descriptor(SL_CONFIG_TAG, [2]), sl);
    NodeRead(DECODER_CONFIG_TAG, Fmp4.DecoderConfigFields(), Fmp4.Descriptor(DECODER_INFO_TAG, asc),
             Fmp4.Descriptor(SL_CONFIG_TAG, [2]), [info], [sl]);
    var config := Descriptor(DECODER_CONFIG_TAG, Fmp4.DecoderConfigFields(), [info]);
    assert [config] + [sl] == Intended(asc).children;
  }

  lemma {:induction false} ShortConfig(asc: seq<byte>)
    requires |asc| <= 104
    ensures Parse(Fmp4.Descriptor(ES_TAG, Fmp4.EsContent(asc))) == Some([Intended(asc)])
  {
    var inner := Fmp4.Descriptor(DECODER_CONFIG_TAG, Fmp4.DecoderConfig(asc)) + Fmp4.Descriptor(SL_CONFIG_TAG, [2]);
    ConfigRead(asc);
    EsLength(asc);
    assert Fmp4.EsContent(asc) == [0, 1, 0] + inner;
    NodeRead(ES_TAG, [0, 1, 0], inner, [], Intended(asc).children, []);
    NothingFollows(Fmp4.Descriptor(ES_TAG, [0, 1, 0] + inner), Intended(asc));
  }

  lemma {:induction false} EsLength(asc: seq<byte>)
    ensures |Fmp4.EsContent(asc)| == 23 + |asc|
    ensures Fmp4.EsContent(asc)[..3] == [0, 1, 0]
  {
  }

  /** From 105 bytes on, the one-byte length of the outermost descriptor is wrong: its high bit is taken for a
      continuation, or it has wrapped around. */
  lemma {:induction false} LongConfig(asc: seq<byte>)
    requires |asc| > 104
    ensures Parse(Fmp4.Descriptor(ES_TAG, Fmp4.EsContent(asc))) != Some([Intended(asc)])
  {
    EsLength(asc);
    WrongLength(Fmp4.EsContent(asc), Intended(asc));
  }

  lemma {:induction false} WrongLength(content: seq<byte>, x: Descriptor)
    requires |content| >= 0x80 && content[..3] == [0, 1, 0] && x.fields == [0, 1, 0]
    ensures Parse(Fmp4.Descriptor(ES_TAG, content)) != Some([x])
  {
    var n := |content| % 0x100;
    var d := Fmp4.Descriptor(ES_TAG, content);
    assert d[1..] == [n] + content && ([n] + content)[1..] == content;
    assert content[0] == content[..3][0] && content[1] == content[..3][1];
    if n < 0x80 {
      assert ReadLength(d[1..], 4, 0) == Some((n, content));
      assert content[n..] != [];
    } else {
      ContinuedLength(n, content);
      assert content[1..][0] == 1;
      if Parse(d) == Some([x]) {
        FieldsRead(d, 0x80 * (n - 0x80), content[1..], [x]);
      }
    }
  }

  lemma {:induction false} FieldsRead(d: seq<byte>, n: nat, body: seq<byte>, bs: seq<Descriptor>)
    requires d != [] && d[0] == ES_TAG && ReadLength(d[1..], 4, 0) == Some((n, body)) && Parse(d) == Some(bs)
    ensures 3 <= |body| && bs != [] && bs[0].fields == body[..3]
  {
  }

  lemma {:induction false} ContinuedLength(n: byte, content: seq<byte>)
    requires n >= 0x80 && content != [] && content[0] == 0
    ensures ReadLength([n] + content, 4, 0) == Some((0x80 * (n - 0x80), content[1..]))
  {
    assert ([n] + content)[1..] == content;
  }

  /** The descriptor lengths in `esds` tile, and a reader finds the intended descriptors, exactly for an
      AudioSpecificConfig of at most 104 bytes. */
  lemma {:induction false} EsdsRoundTrip(asc: seq<byte>)
    ensures Parse(Fmp4.Descriptor(ES_TAG, Fmp4.EsContent(asc))) == Some([Intended(asc)]) <==> |asc| <= 104
  {
    if |asc| <= 104 {
      ShortConfig(asc);
    } else {
      LongConfig(asc);
    }
  }
}
