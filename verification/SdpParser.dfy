/**
  The parser object of sdp_parser.c: a cursor that walks up to 15 separately allocated frames, with
  the flag that outlives a request. Every method is tied to the meaning of a parse in SdpElements.
*/
module SdpParser {
  import opened Bytes
  import opened SdpElements
  import opened SdpRecords
  import opened SdpFrames

  const MAX_FRAMES := 15

  /** What the parser may be given: at most 15 frames, none empty, 65535 bytes in all. */
  predicate Parsable(fs: seq<seq<byte>>)
  {
    |fs| <= MAX_FRAMES && (forall i | 0 <= i < |fs| :: |fs[i]| > 0) && |Flatten(fs)| < 0x1_0000
  }

  /** An answer agrees with a parse: an abort is None. */
  predicate Agrees<T(==)>(p: Parsed<T>, r: Option<T>)
  {
    match p
    case Abort => r.None?
    case Done(v, _) => r == Some(v)
  }

  /** What has been read, in front of what is left to read. */
  function Onto<T>(xs: seq<T>, p: Parsed<seq<T>>): (r: Parsed<seq<T>>)
  {
    match p
    case Abort => Abort
    case Done(rest, t) => Done(xs + rest, t)
  }

  lemma OntoNil<T>(p: Parsed<seq<T>>)
    ensures Onto([], p) == p
  {
    if p.Done? {
      assert [] + p.value == p.value;
    }
  }

  lemma OntoDone<T>(xs: seq<T>, t: Scan)
    ensures Onto(xs, Done([], t)) == Done(xs, t)
  {
    assert xs + [] == xs;
  }

  lemma OntoAssoc<T>(xs: seq<T>, x: T, p: Parsed<seq<T>>)
    ensures Onto(xs, Onto([x], p)) == Onto(xs + [x], p)
  {
    if p.Done? {
      assert xs + ([x] + p.value) == xs + [x] + p.value;
    }
  }

  lemma OntoStep(es: seq<Elem>, d: seq<byte>, lens: seq<nat>, stop: nat, s: Scan)
    requires Sum(lens) == |d| && s.pos <= |d| && s.pos < stop
    ensures ReadElem(d, lens, s).Abort? ==> ReadElems(d, lens, stop, s).Abort?
    ensures ReadElem(d, lens, s).Done? ==>
      Onto(es, ReadElems(d, lens, stop, s))
      == Onto(es + [ReadElem(d, lens, s).value], ReadElems(d, lens, stop, ReadElem(d, lens, s).next))
  {
    var e := ReadElem(d, lens, s);
    if e.Done? {
      OntoAssoc(es, e.value, ReadElems(d, lens, stop, e.next));
    }
  }

  class Parser {
    const frames: seq<seq<byte>>   // req->frame[].data
    ghost const d: seq<byte>       // the frames run together
    ghost const lens: seq<nat>     // the frame lengths
    var frameNum: byte             // parse_frame_num
    var frameLen: nat              // parse_frame_len
    var ptr: Option<nat>           // parse_ptr, as an offset into its frame; None is null
    var parsed: word               // bytes_parsed
    var channel: byte              // rfcomm_channel
    var complete: bool             // parse_complete
    var armed: bool                // next_uint_is_rfcomm_channel

    /** The start of parseServiceRecords: the cursor at frame 0, no channel, the flag as it was left. */
    constructor (fs: seq<seq<byte>>, flag: bool)
      requires Parsable(fs) && fs != []
      ensures Valid() && frames == fs && d == Flatten(fs) && lens == Lens(fs) && frameNum == 0
      ensures Cursor() == Scan(0, flag, 255) && !complete
    {
      frames, d, lens := fs, Flatten(fs), Lens(fs);
      frameNum, frameLen, ptr, parsed := 0, |fs[0]|, Some(0), 0;
      channel, complete, armed := 255, false, flag;
      SumLens(fs);
    }

    ghost function Cursor(): (r: Scan)
      reads this
    {
      Scan(parsed, armed, channel)
    }

    /** The cursor is at a byte of frame frameNum, or null past the last frame. */
    ghost predicate Valid()
      reads this
    {
      && Parsable(frames) && d == Flatten(frames) && lens == Lens(frames) && Sum(lens) == |d|
      && frameNum <= |frames| + 1
      && parsed <= |d|
      && (frameNum < |frames| ==>
            && 0 < frameLen <= |frames[frameNum]| && ptr == Some(|frames[frameNum]| - frameLen)
            && parsed + frameLen == Offset(frames, frameNum) + |frames[frameNum]|)
      && (frameNum >= |frames| ==> frameLen == 0 && ptr == None && parsed == |d|)
    }

    lemma Here()
      requires Valid()
      ensures Room(lens, parsed) == frameLen
      ensures ptr.None? <==> parsed == |d|
      ensures ptr.Some? ==>
                && frameNum < |frames| && ptr.value < |frames[frameNum]|
                && d[parsed] == frames[frameNum][ptr.value]
    {
      if frameNum < |frames| {
        Locate(frames, frameNum, ptr.value);
      } else {
        RoomAtEnd(lens);
      }
    }

    /** The bytes in frames the cursor has not reached. */
    ghost function Later(): (r: nat)
      reads this
    {
      if frameNum < |frames| then |Flatten(frames[frameNum + 1..])| else 0
    }

    /** Bytes parsed plus bytes left in this frame plus bytes in later frames is the whole stream. */
    lemma Conservation()
      requires Valid()
      ensures parsed + frameLen + Later() == |d|
    {
      if frameNum < |frames| {
        Conserved(frames, frameNum);
      }
    }

    lemma FrameEnd()
      requires Valid() && frameNum < |frames|
      ensures parsed + frameLen == Offset(frames, frameNum + 1) <= |d|
      ensures frameNum + 1 == |frames| ==> parsed + frameLen == |d|
    {
      OffsetStep(frames, frameNum);
      OffsetEnd(frames);
      Locate(frames, frameNum, ptr.value);
    }

    /** Step over amt bytes, unless this frame has fewer. */
    method IncParse(amt: nat)
      requires Valid() && frameNum <= |frames|
      modifies this`frameNum, this`frameLen, this`ptr, this`parsed
      ensures Valid()
      ensures parsed == old(parsed) + if amt <= old(frameLen) then amt else 0
      ensures amt > 0 || old(frameNum) < |frames| ==> frameNum <= |frames|
    {
      if amt > frameLen {
        return;
      }
      if frameNum < |frames| {
        FrameEnd();
      }
      frameLen := frameLen - amt;
      ptr := if ptr.Some? then Some(ptr.value + amt) else None;
      parsed := parsed + amt;
      if frameLen == 0 {
        frameNum := (frameNum + 1) % 256;
        if frameNum < |frames| {
          ptr := Some(0);
          frameLen := |frames[frameNum]|;
        } else {
          ptr := None;
          frameLen := 0;
        }
      }
    }

    // -------------------------------------------------------------- numbers

    method GetU8() returns (r: Option<byte>)
      requires Valid()
      modifies this`frameNum, this`frameLen, this`ptr, this`parsed
      ensures r.None? <==> old(parsed) == |d|
      ensures r.Some? ==> Valid() && parsed == old(parsed) + 1 && r.value == d[old(parsed)] && frameNum <= |frames|
    {
      Here();
      if ptr.None? {
        return None;
      }
      var val := frames[frameNum][ptr.value];
      IncParse(1);
      r := Some(val);
    }

    method GetU16() returns (r: Option<nat>)
      requires Valid()
      modifies this`frameNum, this`frameLen, this`ptr, this`parsed
      ensures Agrees(ReadNumber(d, old(Cursor()), 2), r)
      ensures r.Some? ==> Valid() && Cursor() == ReadNumber(d, old(Cursor()), 2).next && frameNum <= |frames|
    {
      ReadTwo(d, Cursor());
      var b1 := GetU8();
      if b1.None? { return None; }
      var b0 := GetU8();
      if b0.None? { return None; }
      r := Some(Be2(b1.value, b0.value));
    }

    method GetU32() returns (r: Option<nat>)
      requires Valid()
      modifies this`frameNum, this`frameLen, this`ptr, this`parsed
      ensures Agrees(ReadNumber(d, old(Cursor()), 4), r)
      ensures r.Some? ==> Valid() && Cursor() == ReadNumber(d, old(Cursor()), 4).next && frameNum <= |frames|
    {
      ReadFour(d, Cursor());
      var b3 := GetU8();
      if b3.None? { return None; }
      var b2 := GetU8();
      if b2.None? { return None; }
      var b1 := GetU8();
      if b1.None? { return None; }
      var b0 := GetU8();
      if b0.None? { return None; }
      r := Some(Be4(b3.value, b2.value, b1.value, b0.value));
    }

    method GetU64() returns (r: Option<nat>)
      requires Valid()
      modifies this`frameNum, this`frameLen, this`ptr, this`parsed
      ensures Agrees(ReadNumber(d, old(Cursor()), 8), r)
      ensures r.Some? ==> Valid() && Cursor() == ReadNumber(d, old(Cursor()), 8).next && frameNum <= |frames|
    {
      ReadConcat(d, Cursor(), 4, 4);
      var hi := GetU32();
      if hi.None? { return None; }
      var lo := GetU32();
      if lo.None? { return None; }
      r := Some(Join(hi.value, 4, lo.value));
    }

    method GetU128() returns (r: Option<nat>)
      requires Valid()
      modifies this`frameNum, this`frameLen, this`ptr, this`parsed
      ensures Agrees(ReadNumber(d, old(Cursor()), 16), r)
      ensures r.Some? ==> Valid() && Cursor() == ReadNumber(d, old(Cursor()), 16).next && frameNum <= |frames|
    {
      ReadConcat(d, Cursor(), 8, 8);
      var hi := GetU64();
      if hi.None? { return None; }
      var lo := GetU64();
      if lo.None? { return None; }
      r := Some(Join(hi.value, 8, lo.value));
    }

    // -------------------------------------------------------------- data elements

    method ParseDEHeader() returns (r: Option<Header>)
      requires Valid()
      modifies this`frameNum, this`frameLen, this`ptr, this`parsed
      ensures Agrees(ReadHeader(d, old(Cursor())), r)
      ensures r.Some? ==> Valid() && Cursor() == ReadHeader(d, old(Cursor())).next && frameNum <= |frames|
    {
      ghost var s1 := Cursor().(pos := parsed + 1);
      ReadOne(d, s1);
      var hdr := GetU8();
      if hdr.None? { return None; }
      var deType, size := hdr.value / 8, hdr.value % 8;
      if size < 5 {
        return Some(Header(deType, size, FixedSize(size)));
      }
      var n: Option<nat>;
      if LengthBytes(size) == 1 {
        var n8 := GetU8();
        n := if n8.Some? then Some(n8.value) else None;
      } else if LengthBytes(size) == 2 {
        n := GetU16();
      } else {
        n := GetU32();
      }
      if n.None? || n.value >= 0x8000_0000 { return None; }
      r := Some(Header(deType, size, n.value));
    }

    /** inc_parse over a payload nobody reads. */
    method Skip(n: nat) returns (r: Body)
      requires Valid() && frameNum <= |frames|
      modifies this`frameNum, this`frameLen, this`ptr, this`parsed
      ensures Valid()
      ensures SkipRaw(lens, old(Cursor()), n) == Done(r, Cursor())
    {
      Here();
      r := if n <= frameLen then Skipped(n) else Refused;
      IncParse(n);
    }

    /** The reading loop of printString and of uuid-128. */
    method CopyPayload(n: nat) returns (text: seq<byte>)
      requires Valid() && n <= frameLen
      ensures parsed + n <= |d| && text == d[parsed..parsed + n]
    {
      text := [];
      if ptr.None? { return; }
      FrameEnd();
      LocateSlice(frames, frameNum, ptr.value, n);
      for i := 0 to n
        invariant text == frames[frameNum][ptr.value..ptr.value + i]
      {
        text := text + [frames[frameNum][ptr.value + i]];
      }
    }

    /** A payload read through the cursor and then stepped over. */
    method ReadPayload(n: nat) returns (r: Option<Body>)
      requires Valid() && frameNum <= |frames|
      modifies this`frameNum, this`frameLen, this`ptr, this`parsed
      ensures Agrees(ReadRaw(d, lens, old(Cursor()), n), r)
      ensures r.Some? ==> Valid() && Cursor() == ReadRaw(d, lens, old(Cursor()), n).next
    {
      Here();
      if n > 0 && ptr.None? { return None; }
      if n > frameLen {
        r := Some(Refused);
      } else {
        var text := CopyPayload(n);
        r := Some(Raw(text));
      }
      IncParse(n);
    }

    method PrintInt(h: Header) returns (r: Option<Body>)
      requires Valid() && frameNum <= |frames|
      modifies this`frameNum, this`frameLen, this`ptr, this`parsed, this`armed, this`channel
      ensures Agrees(ReadInt(d, lens, h, old(Cursor())), r)
      ensures r.Some? ==> Valid() && Cursor() == ReadInt(d, lens, h, old(Cursor())).next
    {
      var v: Option<nat>;
      if h.len == 1 {
        ReadOne(d, Cursor());
        var v8 := GetU8();
        v := if v8.Some? then Some(v8.value) else None;
        if v8.Some? && armed && h.deType == DE_UINT {
          channel := v8.value;
          armed := false;
        }
      } else if h.len == 2 {
        v := GetU16();
      } else if h.len == 4 {
        v := GetU32();
      } else if h.len == 8 {
        v := GetU64();
      } else if h.len == 16 {
        v := GetU128();
      } else {
        var b := Skip(h.len);
        return Some(b);
      }
      r := if v.Some? then Some(Number(v.value)) else None;
    }

    method PrintUUID(h: Header) returns (r: Option<Body>)
      requires Valid() && frameNum <= |frames|
      modifies this`frameNum, this`frameLen, this`ptr, this`parsed, this`armed
      ensures Agrees(ReadUuid(d, lens, h, old(Cursor())), r)
      ensures r.Some? ==> Valid() && Cursor() == ReadUuid(d, lens, h, old(Cursor())).next
    {
      var uuid: Option<nat>;
      if h.len == 2 {
        uuid := GetU16();
      } else if h.len == 4 {
        uuid := GetU32();
      } else if h.len == 16 {
        r := ReadPayload(16);
        return;
      } else {
        var b := Skip(h.len);
        return Some(b);
      }
      if uuid.None? { return None; }
      armed := uuid.value == RFCOMM_UUID;
      r := Some(Number(uuid.value));
    }

    /** parseDE: one data element, with the element it printed. */
    method ParseDE() returns (r: Option<Elem>)
      requires Valid()
      modifies this`frameNum, this`frameLen, this`ptr, this`parsed, this`armed, this`channel
      ensures Agrees(ReadElem(d, lens, old(Cursor())), r)
      ensures r.Some? ==> Valid() && Cursor() == ReadElem(d, lens, old(Cursor())).next
      decreases |d| - parsed, 0
    {
      var oh := ParseDEHeader();
      if oh.None? { return None; }
      var h := oh.value;
      if IsSequenceType(h.deType) {
        var es := ParseDEs(h.len, ReadElems(d, lens, parsed + h.len, Cursor()));
        return if es.Some? then Some(Sequence(h, es.value)) else None;
      }
      var b: Option<Body>;
      if h.deType == DE_NULL {
        b := Some(Nothing);
      } else if IsIntType(h.deType) {
        b := PrintInt(h);
      } else if h.deType == DE_UUID {
        b := PrintUUID(h);
      } else if IsTextType(h.deType) {
        b := ReadPayload(h.len);
      } else {
        var skipped := Skip(h.len);
        b := Some(skipped);
      }
      r := if b.Some? then Some(Leaf(h, b.value)) else None;
    }

    /** The loop of parseDEs; p is what it should read. */
    method ParseDEs(numBytes: nat, ghost p: Parsed<seq<Elem>>) returns (r: Option<seq<Elem>>)
      requires Valid() && p == ReadElems(d, lens, parsed + numBytes, Cursor())
      modifies this`frameNum, this`frameLen, this`ptr, this`parsed, this`armed, this`channel
      ensures Agrees(p, r) && (r.Some? ==> Valid() && Cursor() == p.next)
      decreases |d| - parsed, 1
    {
      var startBytes := parsed;
      var es := [];
      ghost var stop := parsed + numBytes;
      OntoNil(p);
      while numBytes > parsed - startBytes
        invariant Valid() && startBytes <= parsed
        invariant Onto(es, ReadElems(d, lens, stop, Cursor())) == p
        decreases |d| - parsed
      {
        OntoStep(es, d, lens, stop, Cursor());
        var e := ParseDE();
        if e.None? { return None; }
        es := es + [e.value];
      }
      OntoDone(es, Cursor());
      r := Some(es);
    }

    // -------------------------------------------------------------- service records

    /** parseAttrList: one record, with what it printed; p is what it should read. */
    method ParseAttrList(ghost p: Parsed<Record>) returns (r: Option<Record>)
      requires Valid() && p == ReadRecord(d, lens, Cursor())
      modifies this`frameNum, this`frameLen, this`ptr, this`parsed, this`armed, this`channel
      ensures Agrees(p, r) && (r.Some? ==> Valid() && Cursor() == p.next)
    {
      var oh := ParseDEHeader();
      if oh.None? { return None; }
      r := ParseEntries(oh.value, p);
    }

    /** The attributes behind their header: anything but a sequence holds none. */
    method ParseEntries(h: Header, ghost p: Parsed<Record>) returns (r: Option<Record>)
      requires Valid() && p == ReadEntries(d, lens, h, Cursor())
      modifies this`frameNum, this`frameLen, this`ptr, this`parsed, this`armed, this`channel
      ensures Agrees(p, r) && (r.Some? ==> Valid() && Cursor() == p.next)
    {
      if h.deType != DE_SEQ {
        return Some(Record([], false));
      }
      ghost var stop := parsed + h.len;
      r := ParseAttributes(h.len, stop, p);
    }

    /** The loop of parseAttrList, up to stream position stop; p is what it should read. */
    method ParseAttributes(numBytes: nat, ghost stop: nat, ghost p: Parsed<Record>) returns (r: Option<Record>)
      requires Valid() && stop == parsed + numBytes && p == ReadAttributes(d, lens, stop, Cursor())
      modifies this`frameNum, this`frameLen, this`ptr, this`parsed, this`armed, this`channel
      ensures Agrees(p, r) && (r.Some? ==> Valid() && Cursor() == p.next)
    {
      var startBytes := parsed;
      var attrs: seq<Attribute> := [];
      ghost var rest := p;
      AttrsNil(p);
      while numBytes > parsed - startBytes
        invariant Valid() && startBytes <= parsed
        invariant rest == ReadAttributes(d, lens, stop, Cursor())
        invariant AttrsOnto(attrs, rest) == p
        decreases |d| - parsed
      {
        AttrsHeader(attrs, d, lens, stop, Cursor());
        var h := ParseDEHeader();
        if h.None? { return None; }
        if !IsAttributeId(h.value) {
          return Some(Record(attrs, false));
        }
        var attr := ParseAttribute(AttrsAfterId(attrs, d, lens, stop, Cursor()), attrs, stop);
        if attr.None? { return None; }
        attrs := attrs + [attr.value];
        rest := ReadAttributes(d, lens, stop, Cursor());
      }
      AttrsDone(attrs, Cursor());
      r := Some(Record(attrs, true));
    }

    /** The attribute ID and value that follow an attribute header. */
    method ParseAttribute(ghost p: Parsed<Record>, ghost attrs: seq<Attribute>, ghost stop: nat)
        returns (r: Option<Attribute>)
      requires Valid() && p == AttrsAfterId(attrs, d, lens, stop, Cursor())
      modifies this`frameNum, this`frameLen, this`ptr, this`parsed, this`armed, this`channel
      ensures r.None? ==> p.Abort?
      ensures r.Some? ==> Valid() && old(parsed) < parsed
      ensures r.Some? ==> p == AttrsOnto(attrs + [r.value], ReadAttributes(d, lens, stop, Cursor()))
    {
      var id := GetU16();
      if id.None? { return None; }
      var v := ParseDE();
      if v.None? { return None; }
      r := Some(Attribute(id.value, v.value));
    }

    /** parseServiceRecords, on a parser fresh from its constructor; p is what it should read. */
    method ParseServiceRecords(ghost p: Parsed<seq<Record>>) returns (r: Option<seq<Record>>)
      requires Valid() && parsed == 0 && channel == 255 && p == ReadTop(d, lens, Cursor())
      modifies this`frameNum, this`frameLen, this`ptr, this`parsed, this`armed, this`channel, this`complete
      ensures Agrees(p, r) && (r.Some? ==> complete && Valid() && Cursor() == p.next)
    {
      var oh := ParseDEHeader();
      if oh.None? { return None; }
      r := ParseList(oh.value, p);
      if r.Some? { complete := true; }
    }

    /** The records behind their header: anything but a sequence holds none. */
    method ParseList(h: Header, ghost p: Parsed<seq<Record>>) returns (r: Option<seq<Record>>)
      requires Valid() && p == ReadList(d, lens, h, Cursor())
      modifies this`frameNum, this`frameLen, this`ptr, this`parsed, this`armed, this`channel
      ensures Agrees(p, r) && (r.Some? ==> Valid() && Cursor() == p.next)
    {
      if h.deType != DE_SEQ {
        return Some([]);
      }
      ghost var stop := parsed + h.len;
      r := ParseRecords(h.len, stop, p);
    }

    /** The loop of parseServiceRecords, up to stream position stop; p is what it should read. */
    method ParseRecords(numBytes: nat, ghost stop: nat, ghost p: Parsed<seq<Record>>) returns (r: Option<seq<Record>>)
      requires Valid() && stop == parsed + numBytes && p == ReadRecords(d, lens, stop, Cursor())
      modifies this`frameNum, this`frameLen, this`ptr, this`parsed, this`armed, this`channel
      ensures Agrees(p, r) && (r.Some? ==> Valid() && Cursor() == p.next)
    {
      var startBytes := parsed;
      var recs: seq<Record> := [];
      ghost var rest := p;
      OntoNil(p);
      while numBytes > parsed - startBytes
        invariant Valid() && startBytes <= parsed
        invariant rest == ReadRecords(d, lens, stop, Cursor())
        invariant Onto(recs, rest) == p
        decreases |d| - parsed
      {
        ghost var one := ReadRecord(d, lens, Cursor());
        RecordsStep(recs, d, lens, stop, Cursor());
        var rec := ParseAttrList(one);
        if rec.None? { return None; }
        recs := recs + [rec.value];
        if !rec.value.complete {
          return Some(recs);
        }
        rest := ReadRecords(d, lens, stop, one.next);
      }
      OntoDone(recs, Cursor());
      r := Some(recs);
    }
  }

  function AttrsOnto(xs: seq<Attribute>, p: Parsed<Record>): (r: Parsed<Record>)
  {
    match p
    case Abort => Abort
    case Done(rec, t) => Done(rec.(attributes := xs + rec.attributes), t)
  }

  lemma AttrsNil(p: Parsed<Record>)
    ensures AttrsOnto([], p) == p
  {
    if p.Done? {
      assert [] + p.value.attributes == p.value.attributes;
    }
  }

  lemma AttrsDone(xs: seq<Attribute>, t: Scan)
    ensures AttrsOnto(xs, Done(Record([], true), t)) == Done(Record(xs, true), t)
  {
    assert xs + [] == xs;
  }

  /** One turn of the loop of parseAttrList, exit by exit. */
  lemma AttrsHeader(xs: seq<Attribute>, d: seq<byte>, lens: seq<nat>, stop: nat, s: Scan)
    requires Sum(lens) == |d| && s.pos < stop && s.pos <= |d|
    ensures var p, h := ReadAttributes(d, lens, stop, s), ReadHeader(d, s);
            && (h.Abort? ==> p.Abort?)
            && (h.Done? && !IsAttributeId(h.value) ==> AttrsOnto(xs, p) == Done(Record(xs, false), h.next))
            && (h.Done? && IsAttributeId(h.value) ==> AttrsOnto(xs, p) == AttrsAfterId(xs, d, lens, stop, h.next))
  {
    var h := ReadHeader(d, s);
    assert xs + [] == xs;
    if h.Done? && IsAttributeId(h.value) {
      var id := ReadNumber(d, h.next, 2);
      if id.Done? {
        var v := ReadElem(d, lens, id.next);
        if v.Done? {
          var rest := ReadAttributes(d, lens, stop, v.next);
          if rest.Done? {
            assert xs + ([Attribute(id.value, v.value)] + rest.value.attributes)
                == xs + [Attribute(id.value, v.value)] + rest.value.attributes;
          }
        }
      }
    }
  }

  /** What follows a good attribute header. */
  function AttrsAfterId(xs: seq<Attribute>, d: seq<byte>, lens: seq<nat>, stop: nat, s: Scan): (r: Parsed<Record>)
    requires Sum(lens) == |d| && s.pos <= |d|
  {
    match ReadNumber(d, s, 2)
    case Abort => Abort
    case Done(id, s2) =>
      match ReadElem(d, lens, s2)
      case Abort => Abort
      case Done(v, s3) => AttrsOnto(xs + [Attribute(id, v)], ReadAttributes(d, lens, stop, s3))
  }

  lemma RecordsStep(recs: seq<Record>, d: seq<byte>, lens: seq<nat>, stop: nat, s: Scan)
    requires Sum(lens) == |d| && s.pos <= |d| && s.pos < stop
    ensures ReadRecord(d, lens, s).Abort? ==> ReadRecords(d, lens, stop, s).Abort?
    ensures ReadRecord(d, lens, s).Done? && !ReadRecord(d, lens, s).value.complete ==>
      Onto(recs, ReadRecords(d, lens, stop, s))
          == Done(recs + [ReadRecord(d, lens, s).value], ReadRecord(d, lens, s).next)
    ensures ReadRecord(d, lens, s).Done? && ReadRecord(d, lens, s).value.complete ==>
      Onto(recs, ReadRecords(d, lens, stop, s))
      == Onto(recs + [ReadRecord(d, lens, s).value], ReadRecords(d, lens, stop, ReadRecord(d, lens, s).next))
  {
    var rec := ReadRecord(d, lens, s);
    if rec.Done? && rec.value.complete {
      OntoAssoc(recs, rec.value, ReadRecords(d, lens, stop, rec.next));
    }
  }
}
