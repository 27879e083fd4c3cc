/**
  The formats of SDP data elements, byte by byte (Bluetooth Core Specification, Vol 3 Part B, sections 3.1
  to 3.3): what each header byte, each number, each UUID and each text means to the parser. Nothing here
  speaks of the parser's own tables.
*/
module SdpFormats {
  import opened Bytes
  import opened SdpElements
  import opened SdpRecords

  // ---------------------------------------------------------------- numbers

  /** Two and four bytes spell a number, most significant first. */
  function Word(hi: byte, lo: byte): (v: nat) { 256 * hi + lo }

  function Long(a: byte, b: byte, c: byte, e: byte): (v: nat) { 0x100_0000 * a + 0x1_0000 * b + 0x100 * c + e }

  lemma OneByte(b: byte)
    ensures FromBe([b]) == b
  {
    assert [b][..0] == [];
  }

  lemma TwoBytes(hi: byte, lo: byte)
    ensures FromBe([hi, lo]) == Word(hi, lo)
  {
    assert [hi, lo][..1] == [hi];
    OneByte(hi);
  }

  lemma FourBytes(a: byte, b: byte, c: byte, e: byte)
    ensures FromBe([a, b, c, e]) == Long(a, b, c, e)
  {
    assert [a, b, c, e][..3] == [a, b, c] && [a, b, c][..2] == [a, b];
    TwoBytes(a, b);
  }

  /** Eight and sixteen bytes, in halves. */
  lemma EightBytes(a: seq<byte>, b: seq<byte>)
    requires |a| == |b| == 4
    ensures FromBe(a + b) == 0x1_0000_0000 * FromBe(a) + FromBe(b)
  {
    BeConcat(a, b);
    assert Pow256(4) == 256 * Pow256(3) == 0x1_0000_0000;
  }

  lemma SixteenBytes(a: seq<byte>, b: seq<byte>)
    requires |a| == |b| == 8
    ensures FromBe(a + b) == 0x1_0000_0000_0000_0000 * FromBe(a) + FromBe(b)
  {
    BeConcat(a, b);
    assert Pow256(8) == 256 * Pow256(7) && Pow256(6) == 256 * Pow256(5) && Pow256(4) == 0x1_0000_0000;
  }

  /** Reading them at the cursor. */
  lemma ReadByte(d: seq<byte>, s: Scan)
    requires s.pos + 1 <= |d|
    ensures ReadNumber(d, s, 1) == Done(d[s.pos], s.(pos := s.pos + 1))
  {
    assert d[s.pos..s.pos + 1] == [d[s.pos]];
    OneByte(d[s.pos]);
  }

  lemma ReadWord(d: seq<byte>, s: Scan)
    requires s.pos + 2 <= |d|
    ensures ReadNumber(d, s, 2) == Done(Word(d[s.pos], d[s.pos + 1]), s.(pos := s.pos + 2))
  {
    assert d[s.pos..s.pos + 2] == [d[s.pos], d[s.pos + 1]];
    TwoBytes(d[s.pos], d[s.pos + 1]);
  }

  lemma ReadLong(d: seq<byte>, s: Scan)
    requires s.pos + 4 <= |d|
    ensures ReadNumber(d, s, 4)
         == Done(Long(d[s.pos], d[s.pos + 1], d[s.pos + 2], d[s.pos + 3]), s.(pos := s.pos + 4))
  {
    assert d[s.pos..s.pos + 4] == [d[s.pos], d[s.pos + 1], d[s.pos + 2], d[s.pos + 3]];
    FourBytes(d[s.pos], d[s.pos + 1], d[s.pos + 2], d[s.pos + 3]);
  }

  /** The scan some bytes further on. */
  function On(s: Scan, k: nat): (t: Scan) { s.(pos := s.pos + k) }

  // ---------------------------------------------------------------- headers

  lemma HeaderByte(b: byte, t: nat, i: nat)
    requires t < 32 && i < 8 && b == 8 * t + i
    ensures b / 8 == t && b % 8 == i
  {
  }

  lemma LongForm(d: seq<byte>, s: Scan, t: nat, k: nat, n: nat, s1: Scan)
    requires s.pos < |d| && d[s.pos] / 8 == t && 5 <= d[s.pos] % 8 && k == [1, 2, 4][d[s.pos] % 8 - 5]
    requires ReadNumber(d, On(s, 1), k) == Done(n, s1)
    ensures ReadHeader(d, s) == if n < 0x8000_0000 then Done(Header(t, d[s.pos] % 8, n), s1) else Abort
  {
  }

  /** Size indices 0 to 4 stand for 1, 2, 4, 8 and 16 bytes, and the header is one byte. */
  lemma FixedHeader(d: seq<byte>, s: Scan, t: nat, i: nat)
    requires t < 32 && i < 5 && s.pos < |d| && d[s.pos] == 8 * t + i
    ensures ReadHeader(d, s) == Done(Header(t, i, [1, 2, 4, 8, 16][i]), On(s, 1))
  {
    HeaderByte(d[s.pos], t, i);
    ShortForm(d, s, t, i);
  }

  lemma ShortForm(d: seq<byte>, s: Scan, t: nat, i: nat)
    requires i < 5 && s.pos < |d| && d[s.pos] / 8 == t && d[s.pos] % 8 == i
    ensures ReadHeader(d, s) == Done(Header(t, i, [1, 2, 4, 8, 16][i]), On(s, 1))
  {
  }

  /** Size index 5: the length is the next byte. */
  lemma ByteHeader(d: seq<byte>, s: Scan, t: nat)
    requires t < 32 && s.pos + 2 <= |d| && d[s.pos] == 8 * t + 5
    ensures ReadHeader(d, s) == Done(Header(t, 5, d[s.pos + 1]), On(s, 2))
  {
    HeaderByte(d[s.pos], t, 5);
    ReadByte(d, On(s, 1));
    LongForm(d, s, t, 1, d[s.pos + 1], On(s, 2));
  }

  /** Size index 6: the next two, most significant first. */
  lemma WordHeader(d: seq<byte>, s: Scan, t: nat)
    requires t < 32 && s.pos + 3 <= |d| && d[s.pos] == 8 * t + 6
    ensures ReadHeader(d, s) == Done(Header(t, 6, Word(d[s.pos + 1], d[s.pos + 2])), On(s, 3))
  {
    HeaderByte(d[s.pos], t, 6);
    ReadWord(d, On(s, 1));
    LongForm(d, s, t, 2, Word(d[s.pos + 1], d[s.pos + 2]), On(s, 3));
  }

  /** Size index 7: the next four; from 2^31 on the length is negative in the program, which aborts. */
  lemma LongHeader(d: seq<byte>, s: Scan, t: nat)
    requires t < 32 && s.pos + 5 <= |d| && d[s.pos] == 8 * t + 7
    ensures var n := Long(d[s.pos + 1], d[s.pos + 2], d[s.pos + 3], d[s.pos + 4]);
            ReadHeader(d, s) == if n < 0x8000_0000 then Done(Header(t, 7, n), On(s, 5)) else Abort
  {
    HeaderByte(d[s.pos], t, 7);
    ReadLong(d, On(s, 1));
    LongForm(d, s, t, 4, Long(d[s.pos + 1], d[s.pos + 2], d[s.pos + 3], d[s.pos + 4]), On(s, 5));
  }

  /** A header that the stream ends in aborts. */
  lemma CutHeader(d: seq<byte>, s: Scan)
    requires s.pos < |d| ==> d[s.pos] % 8 >= 5 && |d| - s.pos - 1 < [1, 2, 4][d[s.pos] % 8 - 5]
    ensures ReadHeader(d, s).Abort?
  {
  }

  // ---------------------------------------------------------------- elements

  function AsLeaf(h: Header, p: Parsed<Body>): (r: Parsed<Elem>)
  {
    match p
    case Abort => Abort
    case Done(b, s) => Done(Leaf(h, b), s)
  }

  function AsSequence(h: Header, p: Parsed<seq<Elem>>): (r: Parsed<Elem>)
  {
    match p
    case Abort => Abort
    case Done(es, s) => Done(Sequence(h, es), s)
  }

  /** What a type code other than 6 and 7 has the parser do with the payload. */
  function ByCode(d: seq<byte>, lens: seq<nat>, h: Header, s: Scan): (r: Parsed<Body>)
  {
    if h.deType == 0 then Done(Nothing, s)
    else if h.deType in {1, 2, 5} then ReadInt(d, lens, h, s)
    else if h.deType == 3 then ReadUuid(d, lens, h, s)
    else if h.deType in {4, 8} then ReadRaw(d, lens, s, h.len)
    else SkipRaw(lens, s, h.len)
  }

  lemma BodyByCode(d: seq<byte>, lens: seq<nat>, h: Header, s: Scan)
    requires Sum(lens) == |d| && s.pos <= |d| && h.deType !in {6, 7}
    ensures ReadBody(d, lens, h, s) == ByCode(d, lens, h, s)
  {
  }

  /** Codes 6 and 7 are sequences of elements. */
  lemma SequenceRead(d: seq<byte>, lens: seq<nat>, s: Scan, h: Header, s1: Scan, stop: nat)
    requires Sum(lens) == |d| && ReadHeader(d, s) == Done(h, s1) && (h.deType == 6 || h.deType == 7)
    requires stop == s1.pos + h.len
    ensures ReadElem(d, lens, s) == AsSequence(h, ReadElems(d, lens, stop, s1))
  {
  }

  lemma BodyRead(d: seq<byte>, lens: seq<nat>, s: Scan, h: Header, s1: Scan, p: Parsed<Body>)
    requires Sum(lens) == |d| && ReadHeader(d, s) == Done(h, s1) && h.deType != 6 && h.deType != 7
    requires p == ReadBody(d, lens, h, s1)
    ensures p.Abort? ==> ReadElem(d, lens, s) == Abort
    ensures p.Done? ==> ReadElem(d, lens, s) == Done(Leaf(h, p.value), p.next)
  {
  }

  /**
    What a type code means: 6 and 7 are sequences of elements; of the rest 0 is nothing, 1, 2 and 5 are
    integers, 3 is a UUID, 4 and 8 are text, and any other is stepped over.
  */
  lemma ByType(d: seq<byte>, lens: seq<nat>, s: Scan, h: Header, s1: Scan, stop: nat)
    requires Sum(lens) == |d| && ReadHeader(d, s) == Done(h, s1) && stop == s1.pos + h.len
    ensures h.deType in {6, 7} ==> ReadElem(d, lens, s) == AsSequence(h, ReadElems(d, lens, stop, s1))
    ensures h.deType !in {6, 7} ==> ReadElem(d, lens, s) == AsLeaf(h, ByCode(d, lens, h, s1))
  {
    if h.deType == 6 || h.deType == 7 {
      SequenceRead(d, lens, s, h, s1, stop);
    } else {
      BodyByCode(d, lens, h, s1);
      BodyRead(d, lens, s, h, s1, ReadBody(d, lens, h, s1));
    }
  }

  /** A leaf, from its header and its payload. */
  lemma LeafRead(d: seq<byte>, lens: seq<nat>, s: Scan, h: Header, s1: Scan, b: Body, s2: Scan)
    requires Sum(lens) == |d| && ReadHeader(d, s) == Done(h, s1) && h.deType != 6 && h.deType != 7
    requires ByCode(d, lens, h, s1) == Done(b, s2)
    ensures ReadElem(d, lens, s) == Done(Leaf(h, b), s2)
  {
    BodyByCode(d, lens, h, s1);
    BodyRead(d, lens, s, h, s1, Done(b, s2));
  }

  // ---------------------------------------------------------------- integers

  /** An integer of 1, 2, 4, 8 or 16 bytes that is no uint8 leaves flag and channel alone. */
  lemma OtherInts(d: seq<byte>, lens: seq<nat>, h: Header, s: Scan)
    requires h.deType in {1, 2, 5} && h.len in {1, 2, 4, 8, 16} && !(h.deType == 1 && h.len == 1)
    requires s.pos + h.len <= |d|
    ensures ByCode(d, lens, h, s) == Done(Number(FromBe(d[s.pos..s.pos + h.len])), On(s, h.len))
  {
  }

  /** A uint8 is taken for the channel when the flag is set, which clears it. */
  lemma TakesChannel(d: seq<byte>, lens: seq<nat>, h: Header, s: Scan)
    requires h.deType == 1 && h.len == 1 && s.pos < |d|
    ensures ByCode(d, lens, h, s)
         == Done(Number(d[s.pos]), if s.armed then Scan(s.pos + 1, false, d[s.pos]) else On(s, 1))
  {
    ReadByte(d, s);
  }

  /** 08 v. */
  lemma Uint8(d: seq<byte>, lens: seq<nat>, s: Scan)
    requires Sum(lens) == |d| && s.pos + 2 <= |d| && d[s.pos] == 0x08
    ensures var v := d[s.pos + 1];
            ReadElem(d, lens, s)
            == Done(Leaf(Header(1, 0, 1), Number(v)), if s.armed then Scan(s.pos + 2, false, v) else On(s, 2))
  {
    var v := d[s.pos + 1];
    FixedHeader(d, s, 1, 0);
    TakesChannel(d, lens, Header(1, 0, 1), On(s, 1));
    LeafRead(d, lens, s, Header(1, 0, 1), On(s, 1), Number(v),
             if s.armed then Scan(s.pos + 2, false, v) else On(s, 2));
  }

  /** Integers of odd lengths, and UUIDs, are stepped over; a uuid-128 is read as it stands. */
  lemma OddLengths(d: seq<byte>, lens: seq<nat>, h: Header, s: Scan)
    ensures h.deType in {1, 2, 5} && h.len !in {1, 2, 4, 8, 16} ==> ByCode(d, lens, h, s) == SkipRaw(lens, s, h.len)
    ensures h.deType == 3 && h.len !in {2, 4, 16} ==> ByCode(d, lens, h, s) == SkipRaw(lens, s, h.len)
    ensures h.deType == 3 && h.len == 16 ==> ByCode(d, lens, h, s) == ReadRaw(d, lens, s, 16)
  {
  }

  // ---------------------------------------------------------------- UUIDs

  lemma ShortUuids(d: seq<byte>, lens: seq<nat>, h: Header, s: Scan)
    requires h.deType == 3
    ensures h.len == 2 && s.pos + 2 <= |d| ==>
              var v := Word(d[s.pos], d[s.pos + 1]);
              ByCode(d, lens, h, s) == Done(Number(v), On(s, 2).(armed := v == 3))
    ensures h.len == 4 && s.pos + 4 <= |d| ==>
              var v := Long(d[s.pos], d[s.pos + 1], d[s.pos + 2], d[s.pos + 3]);
              ByCode(d, lens, h, s) == Done(Number(v), On(s, 4).(armed := v == 3))
  {
    if h.len == 2 && s.pos + 2 <= |d| { ReadWord(d, s); }
    if h.len == 4 && s.pos + 4 <= |d| { ReadLong(d, s); }
  }

  /** 19 hi lo: RFCOMM's UUID, which is 3, sets the flag; any other clears it. */
  lemma Uuid16(d: seq<byte>, lens: seq<nat>, s: Scan)
    requires Sum(lens) == |d| && s.pos + 3 <= |d| && d[s.pos] == 0x19
    ensures var v := Word(d[s.pos + 1], d[s.pos + 2]);
            ReadElem(d, lens, s) == Done(Leaf(Header(3, 1, 2), Number(v)), Scan(s.pos + 3, v == 3, s.channel))
  {
    var v := Word(d[s.pos + 1], d[s.pos + 2]);
    FixedHeader(d, s, 3, 1);
    ShortUuids(d, lens, Header(3, 1, 2), On(s, 1));
    LeafRead(d, lens, s, Header(3, 1, 2), On(s, 1), Number(v), Scan(s.pos + 3, v == 3, s.channel));
  }

  /** 1A and four bytes likewise. */
  lemma Uuid32(d: seq<byte>, lens: seq<nat>, s: Scan)
    requires Sum(lens) == |d| && s.pos + 5 <= |d| && d[s.pos] == 0x1A
    ensures var v := Long(d[s.pos + 1], d[s.pos + 2], d[s.pos + 3], d[s.pos + 4]);
            ReadElem(d, lens, s) == Done(Leaf(Header(3, 2, 4), Number(v)), Scan(s.pos + 5, v == 3, s.channel))
  {
    var v := Long(d[s.pos + 1], d[s.pos + 2], d[s.pos + 3], d[s.pos + 4]);
    FixedHeader(d, s, 3, 2);
    ShortUuids(d, lens, Header(3, 2, 4), On(s, 1));
    LeafRead(d, lens, s, Header(3, 2, 4), On(s, 1), Number(v), Scan(s.pos + 5, v == 3, s.channel));
  }

  // ---------------------------------------------------------------- text and sequences

  /** 25 n or 45 n and n bytes that do not cross a frame: the text as it stands. */
  lemma ShortText(d: seq<byte>, lens: seq<nat>, s: Scan, t: nat, n: nat)
    requires Sum(lens) == |d| && (t == 4 || t == 8) && s.pos + 2 <= |d| && d[s.pos] == 8 * t + 5 && n == d[s.pos + 1]
    requires 0 < n <= Room(lens, s.pos + 2) && s.pos + 2 + n <= |d|
    ensures ReadElem(d, lens, s) == Done(Leaf(Header(t, 5, n), Raw(d[s.pos + 2..s.pos + 2 + n])), On(s, 2 + n))
  {
    ByteHeader(d, s, t);
    TextBody(d, lens, Header(t, 5, n), On(s, 2));
    LeafRead(d, lens, s, Header(t, 5, n), On(s, 2), Raw(d[s.pos + 2..s.pos + 2 + n]), On(s, 2 + n));
  }

  lemma TextBody(d: seq<byte>, lens: seq<nat>, h: Header, s: Scan)
    requires (h.deType == 4 || h.deType == 8) && 0 < h.len <= Room(lens, s.pos) && s.pos + h.len <= |d|
    ensures ByCode(d, lens, h, s) == Done(Raw(d[s.pos..s.pos + h.len]), On(s, h.len))
  {
  }

  /** 35 n or 3D n: the elements up to that length. */
  lemma ShortSequence(d: seq<byte>, lens: seq<nat>, s: Scan, t: nat, n: nat)
    requires Sum(lens) == |d| && (t == 6 || t == 7) && s.pos + 2 <= |d| && d[s.pos] == 8 * t + 5 && n == d[s.pos + 1]
    ensures ReadElem(d, lens, s) == AsSequence(Header(t, 5, n), ReadElems(d, lens, s.pos + 2 + n, On(s, 2)))
  {
    ByteHeader(d, s, t);
    SequenceRead(d, lens, s, Header(t, 5, n), On(s, 2), s.pos + 2 + n);
  }

  /** The loop of a sequence with one element in it. */
  lemma Single(d: seq<byte>, lens: seq<nat>, s: Scan, e: Elem, s1: Scan)
    requires Sum(lens) == |d| && s.pos < s1.pos <= |d| && ReadElem(d, lens, s) == Done(e, s1)
    ensures ReadElems(d, lens, s1.pos, s) == Done([e], s1)
  {
    assert ReadElems(d, lens, s1.pos, s1) == Done([], s1);
    assert [e] + [] == [e];
  }

  /** 35 03 19 00 03, RFCOMM's uuid-16 in a sequence: five bytes that set the flag. */
  lemma RfcommSequence(d: seq<byte>, lens: seq<nat>, s: Scan)
    requires Sum(lens) == |d| && s.pos + 5 <= |d| && d[s.pos..s.pos + 5] == [0x35, 0x03, 0x19, 0x00, 0x03]
    ensures ReadElem(d, lens, s)
         == Done(Sequence(Header(6, 5, 3), [Leaf(Header(3, 1, 2), Number(3))]), Scan(s.pos + 5, true, s.channel))
  {
    var b := d[s.pos..s.pos + 5];
    assert d[s.pos] == b[0] && d[s.pos + 1] == b[1] && d[s.pos + 2] == b[2] && d[s.pos + 3] == b[3];
    assert d[s.pos + 4] == b[4];
    InSequence(d, lens, s);
  }

  lemma InSequence(d: seq<byte>, lens: seq<nat>, s: Scan)
    requires Sum(lens) == |d| && s.pos + 5 <= |d| && d[s.pos] == 0x35 && d[s.pos + 1] == 3 && d[s.pos + 2] == 0x19
    requires d[s.pos + 3] == 0 && d[s.pos + 4] == 3
    ensures ReadElem(d, lens, s)
         == Done(Sequence(Header(6, 5, 3), [Leaf(Header(3, 1, 2), Number(3))]), Scan(s.pos + 5, true, s.channel))
  {
    ShortSequence(d, lens, s, 6, 3);
    Uuid16(d, lens, On(s, 2));
    Single(d, lens, On(s, 2), Leaf(Header(3, 1, 2), Number(3)), Scan(s.pos + 5, true, s.channel));
  }

  // ---------------------------------------------------------------- records

  function Behind(a: Attribute, p: Parsed<Record>): (r: Parsed<Record>)
  {
    match p
    case Abort => Abort
    case Done(rest, s) => Done(rest.(attributes := [a] + rest.attributes), s)
  }

  lemma AttributeStep(
      d: seq<byte>, lens: seq<nat>, stop: nat, s: Scan, h: Header, s1: Scan, id: nat, s2: Scan, v: Elem, s3: Scan)
    requires Sum(lens) == |d| && s.pos < stop && s.pos <= |d| && ReadHeader(d, s) == Done(h, s1)
    requires h.deType == 1 && h.len == 2 && ReadNumber(d, s1, 2) == Done(id, s2) && ReadElem(d, lens, s2) == Done(v, s3)
    ensures ReadAttributes(d, lens, stop, s) == Behind(Attribute(id, v), ReadAttributes(d, lens, stop, s3))
  {
  }

  /** An attribute is 09, two bytes of ID, and a value. */
  lemma OneAttribute(d: seq<byte>, lens: seq<nat>, stop: nat, s: Scan, v: Elem, s3: Scan)
    requires Sum(lens) == |d| && s.pos < stop && s.pos + 3 <= |d| && d[s.pos] == 0x09
    requires ReadElem(d, lens, On(s, 3)) == Done(v, s3)
    ensures ReadAttributes(d, lens, stop, s)
         == Behind(Attribute(Word(d[s.pos + 1], d[s.pos + 2]), v), ReadAttributes(d, lens, stop, s3))
  {
    FixedHeader(d, s, 1, 1);
    ReadWord(d, On(s, 1));
    AttributeStep(d, lens, stop, s, Header(1, 1, 2), On(s, 1), Word(d[s.pos + 1], d[s.pos + 2]), On(s, 3), v, s3);
  }

  /** Whatever else stands where an attribute ID should ends the record. */
  lemma NoAttribute(d: seq<byte>, lens: seq<nat>, stop: nat, s: Scan, h: Header, s1: Scan)
    requires Sum(lens) == |d| && s.pos < stop && s.pos <= |d| && ReadHeader(d, s) == Done(h, s1)
    requires h.deType != 1 || h.len != 2
    ensures ReadAttributes(d, lens, stop, s) == Done(Record([], false), s1)
  {
  }

  /** A record is a sequence, read up to its length. */
  lemma RecordIsSequence(d: seq<byte>, lens: seq<nat>, s: Scan, h: Header, s1: Scan, stop: nat)
    requires Sum(lens) == |d| && ReadHeader(d, s) == Done(h, s1) && h.deType == 6 && stop == s1.pos + h.len
    ensures ReadRecord(d, lens, s) == ReadAttributes(d, lens, stop, s1)
  {
  }

  lemma NoRecord(d: seq<byte>, lens: seq<nat>, s: Scan, h: Header, s1: Scan)
    requires Sum(lens) == |d| && ReadHeader(d, s) == Done(h, s1) && h.deType != 6
    ensures ReadRecord(d, lens, s) == Done(Record([], false), s1)
  {
  }

  /** Anything but a sequence holds no records. */
  lemma NoList(d: seq<byte>, lens: seq<nat>, s: Scan, h: Header, s1: Scan)
    requires Sum(lens) == |d| && ReadHeader(d, s) == Done(h, s1) && h.deType != 6
    ensures ReadTop(d, lens, s) == Done([], s1)
  {
  }
}
