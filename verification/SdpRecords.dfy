/**
  Service records (sdp_parser.c, parseAttrList and parseServiceRecords): a DE sequence of attribute
  lists, each a DE sequence of alternating 16-bit attribute IDs and values.
*/
module SdpRecords {
  import opened Bytes
  import opened SdpElements
  import opened SdpTheorems

  datatype Attribute = Attribute(id: nat, value: Elem)

  /** An attribute list; complete tells whether parseAttrList returned true. */
  datatype Record = Record(attributes: seq<Attribute>, complete: bool)

  predicate IsAttributeId(h: Header) { h.deType == DE_UINT && h.len == 2 }

  /** The loop of parseAttrList. */
  function ReadAttributes(d: seq<byte>, lens: seq<nat>, stop: nat, s: Scan): (r: Parsed<Record>)
    requires Sum(lens) == |d| && s.pos <= |d|
    ensures r.Done? ==> s.pos <= r.next.pos <= |d|
    decreases |d| - s.pos
  {
    if stop <= s.pos then Done(Record([], true), s)
    else
      match ReadHeader(d, s)
      case Abort => Abort
      case Done(h, s1) =>
        if !IsAttributeId(h) then Done(Record([], false), s1)
        else
          match ReadNumber(d, s1, 2)
          case Abort => Abort
          case Done(id, s2) =>
            match ReadElem(d, lens, s2)
            case Abort => Abort
            case Done(v, s3) =>
              match ReadAttributes(d, lens, stop, s3)
              case Abort => Abort
              case Done(rest, s4) => Done(rest.(attributes := [Attribute(id, v)] + rest.attributes), s4)
  }

  function ReadRecord(d: seq<byte>, lens: seq<nat>, s: Scan): (r: Parsed<Record>)
    requires Sum(lens) == |d|
    ensures r.Done? ==> s.pos < r.next.pos <= |d|
  {
    match ReadHeader(d, s)
    case Abort => Abort
    case Done(h, s1) => ReadEntries(d, lens, h, s1)
  }

  function ReadEntries(d: seq<byte>, lens: seq<nat>, h: Header, s: Scan): (r: Parsed<Record>)
    requires Sum(lens) == |d| && s.pos <= |d|
    ensures r.Done? ==> s.pos <= r.next.pos <= |d|
  {
    if h.deType == DE_SEQ then ReadAttributes(d, lens, s.pos + h.len, s) else Done(Record([], false), s)
  }

  /** The loop of parseServiceRecords: it stops at the first incomplete record. */
  function ReadRecords(d: seq<byte>, lens: seq<nat>, stop: nat, s: Scan): (r: Parsed<seq<Record>>)
    requires Sum(lens) == |d| && s.pos <= |d|
    ensures r.Done? ==> s.pos <= r.next.pos <= |d|
    decreases |d| - s.pos
  {
    if stop <= s.pos then Done([], s)
    else
      match ReadRecord(d, lens, s)
      case Abort => Abort
      case Done(rec, s1) =>
        if !rec.complete then Done([rec], s1)
        else
          match ReadRecords(d, lens, stop, s1)
          case Abort => Abort
          case Done(rest, s2) => Done([rec] + rest, s2)
  }

  /** parseServiceRecords, from the flag the previous request left behind. */
  function ReadService(d: seq<byte>, lens: seq<nat>, armed: bool): (r: Parsed<seq<Record>>)
    requires Sum(lens) == |d|
  {
    ReadTop(d, lens, Scan(0, armed, 255))
  }

  function ReadTop(d: seq<byte>, lens: seq<nat>, s: Scan): (r: Parsed<seq<Record>>)
    requires Sum(lens) == |d|
  {
    match ReadHeader(d, s)
    case Abort => Abort
    case Done(h, s1) => ReadList(d, lens, h, s1)
  }

  function ReadList(d: seq<byte>, lens: seq<nat>, h: Header, s: Scan): (r: Parsed<seq<Record>>)
    requires Sum(lens) == |d| && s.pos <= |d|
  {
    if h.deType == DE_SEQ then ReadRecords(d, lens, s.pos + h.len, s) else Done([], s)
  }

  // ---------------------------------------------------------------- records as data elements

  /** The elements of an attribute list: IDs and values in turn. */
  predicate IsAttributeList(es: seq<Elem>)
  {
    es == [] ||
    (|es| >= 2 && es[0].Leaf? && IsAttributeId(es[0].h) && es[0].body.Number? && IsAttributeList(es[2..]))
  }

  predicate IsRecord(e: Elem)
  {
    e.Sequence? && e.h.deType == DE_SEQ && IsAttributeList(e.elems)
  }

  predicate IsRecordList(e: Elem)
  {
    e.Sequence? && e.h.deType == DE_SEQ && AreRecords(e.elems)
  }

  predicate AreRecords(es: seq<Elem>)
  {
    es == [] || (IsRecord(es[0]) && AreRecords(es[1..]))
  }

  function AttributesOf(es: seq<Elem>): (r: seq<Attribute>)
    requires IsAttributeList(es)
  {
    if es == [] then [] else [Attribute(es[0].body.v, es[1])] + AttributesOf(es[2..])
  }

  function RecordsOf(es: seq<Elem>): (r: seq<Record>)
    requires AreRecords(es)
  {
    if es == [] then [] else [Record(AttributesOf(es[0].elems), true)] + RecordsOf(es[1..])
  }

  lemma AttributeIdStep(d: seq<byte>, lens: seq<nat>, s: Scan, h: Header, v: nat, s1: Scan)
    requires Sum(lens) == |d| && IsAttributeId(h)
    requires ReadElem(d, lens, s) == Done(Leaf(h, Number(v)), s1)
    ensures ReadHeader(d, s).Done? && ReadHeader(d, s).value == h
    ensures ReadNumber(d, ReadHeader(d, s).next, 2) == Done(v, s1)
  {
  }

  lemma ElemsSplit(d: seq<byte>, lens: seq<nat>, stop: nat, s: Scan)
    requires Sum(lens) == |d| && s.pos < stop && s.pos <= |d| && ReadElems(d, lens, stop, s).Done?
    ensures ReadElem(d, lens, s).Done? && ReadElems(d, lens, stop, ReadElem(d, lens, s).next).Done?
    ensures var r, e := ReadElems(d, lens, stop, s), ReadElem(d, lens, s);
            var t := ReadElems(d, lens, stop, e.next);
            |r.value| > 0 && r.value[0] == e.value && r.value[1..] == t.value && r.next == t.next
  {
    var e, t := ReadElem(d, lens, s), ReadElems(d, lens, stop, ReadElem(d, lens, s).next);
    assert ReadElems(d, lens, stop, s).value == [e.value] + t.value;
  }

  lemma AttributesStep(d: seq<byte>, lens: seq<nat>, stop: nat, s: Scan, h: Header, id: nat, s1: Scan, s2: Scan,
      v: Elem, s3: Scan, rest: Record, s4: Scan)
    requires Sum(lens) == |d| && s.pos < stop && s.pos <= |d| && IsAttributeId(h)
    requires ReadHeader(d, s) == Done(h, s1) && ReadNumber(d, s1, 2) == Done(id, s2)
    requires ReadElem(d, lens, s2) == Done(v, s3) && ReadAttributes(d, lens, stop, s3) == Done(rest, s4)
    ensures ReadAttributes(d, lens, stop, s)
         == Done(rest.(attributes := [Attribute(id, v)] + rest.attributes), s4)
  {
  }

  /** Reading the elements of an attribute list pairwise is reading the attribute list. */
  lemma {:induction false} AttributesAsElems(d: seq<byte>, lens: seq<nat>, stop: nat, s: Scan, es: seq<Elem>, t: Scan)
    requires Sum(lens) == |d| && s.pos <= |d|
    requires ReadElems(d, lens, stop, s) == Done(es, t) && IsAttributeList(es)
    ensures ReadAttributes(d, lens, stop, s) == Done(Record(AttributesOf(es), true), t)
    decreases |d| - s.pos
  {
    if s.pos < stop {
      ElemsSplit(d, lens, stop, s);
      var s2 := ReadElem(d, lens, s).next;
      assert |es[1..]| > 0 && es[1..][0] == es[1] && es[1..][1..] == es[2..];
      ElemsSplit(d, lens, stop, s2);
      var s3 := ReadElem(d, lens, s2).next;
      AttributesAsElems(d, lens, stop, s3, es[2..], t);
      AttributeIdStep(d, lens, s, es[0].h, es[0].body.v, s2);
      AttributesStep(d, lens, stop, s, es[0].h, es[0].body.v, ReadHeader(d, s).next, s2, es[1], s3,
                     Record(AttributesOf(es[2..]), true), t);
    }
  }

  lemma SequenceParts(d: seq<byte>, lens: seq<nat>, s: Scan, e: Elem, t: Scan, s1: Scan, stop: nat)
    requires Sum(lens) == |d| && ReadElem(d, lens, s) == Done(e, t) && e.Sequence?
    requires s1 == ReadHeader(d, s).next && stop == s1.pos + e.h.len
    ensures ReadHeader(d, s) == Done(e.h, s1) && ReadElems(d, lens, stop, s1) == Done(e.elems, t)
  {
  }

  lemma RecordRead(d: seq<byte>, lens: seq<nat>, s: Scan, h: Header, s1: Scan, stop: nat, p: Parsed<Record>)
    requires Sum(lens) == |d| && ReadHeader(d, s) == Done(h, s1) && h.deType == DE_SEQ && stop == s1.pos + h.len
    requires p == ReadRecord(d, lens, s)
    ensures p == ReadAttributes(d, lens, stop, s1)
  {
  }

  lemma RecordAsElem(d: seq<byte>, lens: seq<nat>, s: Scan)
    requires Sum(lens) == |d|
    requires ReadElem(d, lens, s).Done? && IsRecord(ReadElem(d, lens, s).value)
    ensures var r := ReadElem(d, lens, s);
            ReadRecord(d, lens, s) == Done(Record(AttributesOf(r.value.elems), true), r.next)
  {
    var e, t := ReadElem(d, lens, s).value, ReadElem(d, lens, s).next;
    var s1 := ReadHeader(d, s).next;
    var stop := s1.pos + e.h.len;
    SequenceParts(d, lens, s, e, t, s1, stop);
    AttributesAsElems(d, lens, stop, s1, e.elems, t);
    RecordRead(d, lens, s, e.h, s1, stop, ReadRecord(d, lens, s));
  }

  lemma {:induction false} RecordsAsElems(d: seq<byte>, lens: seq<nat>, stop: nat, s: Scan)
    requires Sum(lens) == |d| && s.pos <= |d|
    requires ReadElems(d, lens, stop, s).Done? && AreRecords(ReadElems(d, lens, stop, s).value)
    ensures var r := ReadElems(d, lens, stop, s);
            ReadRecords(d, lens, stop, s) == Done(RecordsOf(r.value), r.next)
    decreases |d| - s.pos
  {
    if s.pos < stop {
      ElemsSplit(d, lens, stop, s);
      RecordAsElem(d, lens, s);
      RecordsAsElems(d, lens, stop, ReadElem(d, lens, s).next);
    }
  }

  lemma TopRead(d: seq<byte>, lens: seq<nat>, s: Scan, h: Header, s1: Scan, stop: nat, p: Parsed<seq<Record>>)
    requires Sum(lens) == |d| && ReadHeader(d, s) == Done(h, s1) && h.deType == DE_SEQ && stop == s1.pos + h.len
    requires p == ReadTop(d, lens, s)
    ensures p == ReadRecords(d, lens, stop, s1)
  {
  }

  /** Where the stream holds a record list, parseServiceRecords reads what parseDE reads, for any frames. */
  lemma ServiceAsElem(d: seq<byte>, lens: seq<nat>, s: Scan)
    requires Sum(lens) == |d|
    requires ReadElem(d, lens, s).Done? && IsRecordList(ReadElem(d, lens, s).value)
    ensures var r := ReadElem(d, lens, s);
            ReadTop(d, lens, s) == Done(RecordsOf(r.value.elems), r.next)
  {
    var e, t := ReadElem(d, lens, s).value, ReadElem(d, lens, s).next;
    var s1 := ReadHeader(d, s).next;
    var stop := s1.pos + e.h.len;
    SequenceParts(d, lens, s, e, t, s1, stop);
    RecordsAsElems(d, lens, stop, s1);
    TopRead(d, lens, s, e.h, s1, stop, ReadTop(d, lens, s));
  }

  /**
    parseServiceRecords over frames that no payload straddles rebuilds every record of a legal record
    list, and leaves the channel that the fold over its leaves gives.
  */
  lemma ServiceRoundTrip(e: Elem, lens: seq<nat>, armed: bool)
    requires Legal(e) && IsRecordList(e) && Sum(lens) == |Encode(e)| && Fits(lens, e, 0)
    ensures var r := ReadService(Encode(e), lens, armed);
            && r.Done? && r.value == RecordsOf(e.elems) && r.next.pos == |Encode(e)|
            && ExtractorOf(r.next) == FoldLeaves(Extractor(armed, 255), Leaves(e))
  {
    var d, s := Encode(e), Scan(0, armed, 255);
    SingleFrame(d);
    ElemRoundTrip(d, [|d|], e, s);
    FrameIndependence(d, [|d|], lens, s);
    EncodedSpan(d, lens, s, e);
    ReadElemLeadsTo(d, lens, s);
    ServiceAsElem(d, lens, s);
  }
}
