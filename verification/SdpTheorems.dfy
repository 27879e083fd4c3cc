/** What a parse means: conservation, the channel fold, the round trip and frame independence. */
module SdpTheorems {
  import opened Bytes
  import opened SdpElements

  // ---------------------------------------------------------------- position and channel

  /** The scan that reading e from s leads to. */
  ghost predicate LeadsTo(s: Scan, span: nat, leaves: seq<Elem>, t: Scan)
  {
    t.pos == s.pos + span && ExtractorOf(t) == FoldLeaves(ExtractorOf(s), leaves)
  }

  lemma OneLeafFold(x: Extractor, leaf: Elem)
    ensures FoldLeaves(x, [leaf]) == OneLeaf(x, leaf)
  {
    assert [leaf][1..] == [];
    assert FoldLeaves(OneLeaf(x, leaf), []) == OneLeaf(x, leaf);
  }

  lemma ReadBodyLeadsTo(d: seq<byte>, lens: seq<nat>, h: Header, s: Scan)
    requires Sum(lens) == |d| && s.pos <= |d| && !IsSequenceType(h.deType)
    ensures var r := ReadBody(d, lens, h, s);
            r.Done? ==> (r.next.pos == s.pos + BodySpan(h, r.value) &&
                         ExtractorOf(r.next) == OneLeaf(ExtractorOf(s), Leaf(h, r.value)))
  {
  }

  /** On any bytes in any frames: the cursor moves by the span of the element, and the channel is a fold. */
  lemma {:induction false} ReadElemLeadsTo(d: seq<byte>, lens: seq<nat>, s: Scan)
    requires Sum(lens) == |d|
    ensures var r := ReadElem(d, lens, s);
            r.Done? ==> LeadsTo(s, Span(r.value), Leaves(r.value), r.next)
    decreases |d| - s.pos, 0
  {
    match ReadHeader(d, s) {
      case Abort =>
      case Done(h, s1) =>
        if IsSequenceType(h.deType) {
          ReadElemsLeadTo(d, lens, s1.pos + h.len, s1);
        } else {
          ReadBodyLeadsTo(d, lens, h, s1);
          var r := ReadBody(d, lens, h, s1);
          if r.Done? {
            OneLeafFold(ExtractorOf(s), Leaf(h, r.value));
          }
        }
    }
  }

  lemma {:induction false} ReadElemsLeadTo(d: seq<byte>, lens: seq<nat>, stop: nat, s: Scan)
    requires Sum(lens) == |d| && s.pos <= |d|
    ensures var r := ReadElems(d, lens, stop, s);
            r.Done? ==> LeadsTo(s, SpanAll(r.value), LeavesAll(r.value), r.next) && (stop <= r.next.pos)
    decreases |d| - s.pos, 1
  {
    if s.pos < stop {
      ReadElemLeadsTo(d, lens, s);
      match ReadElem(d, lens, s) {
        case Abort =>
        case Done(e, s1) =>
          ReadElemsLeadTo(d, lens, stop, s1);
          match ReadElems(d, lens, stop, s1) {
            case Abort =>
            case Done(es, s2) =>
              FoldConcat(ExtractorOf(s), Leaves(e), LeavesAll(es));
              assert ([e] + es)[1..] == es;
          }
      }
    }
  }

  /** The frames put no boundary before the end of the stream. */
  ghost predicate OneFrame(d: seq<byte>, lens: seq<nat>)
  {
    Sum(lens) == |d| && forall p: nat {:trigger Room(lens, p)} :: p <= |d| ==> Room(lens, p) == |d| - p
  }

  lemma SingleFrame(d: seq<byte>)
    ensures OneFrame(d, [|d|])
  {
    assert [|d|][1..] == [];
  }

  // ---------------------------------------------------------------- round trip

  lemma {:induction false} EncodeSpan(e: Elem)
    requires Legal(e)
    ensures |Encode(e)| == Span(e)
  {
    match e {
      case Leaf(h, b) =>
      case Sequence(h, es) => EncodeSpanAll(es);
    }
  }

  lemma {:induction false} EncodeSpanAll(es: seq<Elem>)
    requires LegalAll(es)
    ensures |EncodeAll(es)| == SpanAll(es)
  {
    if es != [] {
      EncodeSpan(es[0]);
      EncodeSpanAll(es[1..]);
    }
  }

  /** The bytes of x stand in d from position p. */
  ghost predicate At(d: seq<byte>, p: nat, x: seq<byte>)
  {
    p + |x| <= |d| && forall k {:trigger x[k]} :: 0 <= k < |x| ==> d[p + k] == x[k]
  }

  lemma AtSlice(d: seq<byte>, p: nat, x: seq<byte>)
    requires At(d, p, x)
    ensures d[p..p + |x|] == x
  {
  }

  lemma AtSplit(d: seq<byte>, p: nat, x: seq<byte>, y: seq<byte>)
    requires At(d, p, x + y)
    ensures At(d, p, x) && At(d, p + |x|, y)
  {
    forall k | 0 <= k < |x| ensures d[p + k] == x[k] {
      assert (x + y)[k] == x[k];
    }
    forall k | 0 <= k < |y| ensures d[p + |x| + k] == y[k] {
      assert (x + y)[|x| + k] == y[k];
    }
  }

  lemma NumberRoundTrip(d: seq<byte>, s: Scan, v: nat, k: nat)
    requires v < Pow256(k) && At(d, s.pos, ToBe(v, k))
    ensures ReadNumber(d, s, k) == Done(v, s.(pos := s.pos + k))
  {
    AtSlice(d, s.pos, ToBe(v, k));
    BeRoundTrip(v, k);
  }

  lemma HeaderByte(t: nat, size: nat)
    requires t < 32 && size < 8
    ensures var b := (t * 8 + size) % 256; b / 8 == t && b % 8 == size
  {
  }

  lemma HeaderRoundTrip(d: seq<byte>, h: Header, s: Scan)
    requires LegalHeader(h) && At(d, s.pos, EncodeHeader(h))
    ensures ReadHeader(d, s) == Done(h, s.(pos := s.pos + HeaderSpan(h.size)))
  {
    var k, head := LengthBytes(h.size), [(h.deType * 8 + h.size) % 256];
    AtSplit(d, s.pos, head, ToBe(h.len, k));
    assert d[s.pos] == head[0];
    HeaderByte(h.deType, h.size);
    if h.size >= 5 {
      NumberRoundTrip(d, s.(pos := s.pos + 1), h.len, k);
    }
  }

  lemma BodyRoundTrip(d: seq<byte>, lens: seq<nat>, h: Header, b: Body, s: Scan)
    requires OneFrame(d, lens) && Legal(Leaf(h, b)) && s.pos <= |d| && At(d, s.pos, EncodeBody(h, b))
    ensures var r := ReadBody(d, lens, h, s); r.Done? && r.value == b
  {
    match b {
      case Number(v) => NumberRoundTrip(d, s, v, h.len);
      case Raw(text) => AtSlice(d, s.pos, text);
      case _ =>
    }
  }

  lemma LeafStep(d: seq<byte>, lens: seq<nat>, h: Header, s: Scan, s1: Scan)
    requires Sum(lens) == |d| && !IsSequenceType(h.deType)
    requires ReadHeader(d, s) == Done(h, s1) && ReadBody(d, lens, h, s1).Done?
    ensures var r := ReadBody(d, lens, h, s1);
            ReadElem(d, lens, s) == Done(Leaf(h, r.value), r.next)
  {
  }

  lemma LeafAborts(d: seq<byte>, lens: seq<nat>, h: Header, s: Scan, s1: Scan)
    requires Sum(lens) == |d| && s1.pos <= |d| && !IsSequenceType(h.deType)
    requires ReadHeader(d, s) == Done(h, s1) && ReadBody(d, lens, h, s1).Abort?
    ensures ReadElem(d, lens, s) == Abort
  {
  }

  lemma SequenceStep(d: seq<byte>, lens: seq<nat>, h: Header, s: Scan, s1: Scan, stop: nat)
    requires Sum(lens) == |d| && IsSequenceType(h.deType) && stop == s1.pos + h.len && s1.pos <= |d|
    requires ReadHeader(d, s) == Done(h, s1) && ReadElems(d, lens, stop, s1).Done?
    ensures var r := ReadElems(d, lens, stop, s1);
            ReadElem(d, lens, s) == Done(Sequence(h, r.value), r.next)
  {
  }

  lemma SequenceAborts(d: seq<byte>, lens: seq<nat>, h: Header, s: Scan, s1: Scan, stop: nat)
    requires Sum(lens) == |d| && IsSequenceType(h.deType) && stop == s1.pos + h.len && s1.pos <= |d|
    requires ReadHeader(d, s) == Done(h, s1) && ReadElems(d, lens, stop, s1).Abort?
    ensures ReadElem(d, lens, s) == Abort
  {
  }

  lemma ElemsStep(d: seq<byte>, lens: seq<nat>, stop: nat, s: Scan, e: Elem, s1: Scan)
    requires Sum(lens) == |d| && s.pos < stop
    requires ReadElem(d, lens, s) == Done(e, s1) && ReadElems(d, lens, stop, s1).Done?
    ensures var r := ReadElems(d, lens, stop, s1);
            ReadElems(d, lens, stop, s) == Done([e] + r.value, r.next)
  {
  }

  lemma ElemsAbort(d: seq<byte>, lens: seq<nat>, stop: nat, s: Scan)
    requires Sum(lens) == |d| && s.pos < stop && s.pos <= |d|
    requires ReadElem(d, lens, s).Abort? || ReadElems(d, lens, stop, ReadElem(d, lens, s).next).Abort?
    ensures ReadElems(d, lens, stop, s) == Abort
  {
  }

  lemma EncodedSpan(d: seq<byte>, lens: seq<nat>, s: Scan, e: Elem)
    requires Sum(lens) == |d| && Legal(e)
    requires ReadElem(d, lens, s).Done? && ReadElem(d, lens, s).value == e
    ensures ReadElem(d, lens, s).next.pos == s.pos + |Encode(e)|
  {
    ReadElemLeadsTo(d, lens, s);
    EncodeSpan(e);
  }

  lemma LeafRoundTrip(d: seq<byte>, lens: seq<nat>, h: Header, b: Body, s: Scan)
    requires OneFrame(d, lens) && Legal(Leaf(h, b)) && At(d, s.pos, EncodeHeader(h) + EncodeBody(h, b))
    ensures ReadElem(d, lens, s).Done? && ReadElem(d, lens, s).value == Leaf(h, b)
  {
    AtSplit(d, s.pos, EncodeHeader(h), EncodeBody(h, b));
    HeaderRoundTrip(d, h, s);
    var s1 := s.(pos := s.pos + HeaderSpan(h.size));
    BodyRoundTrip(d, lens, h, b, s1);
    LeafStep(d, lens, h, s, s1);
  }

  lemma {:induction false} SequenceRoundTrip(d: seq<byte>, lens: seq<nat>, h: Header, es: seq<Elem>, s: Scan, s1: Scan)
    requires OneFrame(d, lens) && IsSequenceType(h.deType) && LegalAll(es) && h.len == |EncodeAll(es)|
    requires ReadHeader(d, s) == Done(h, s1) && s1.pos <= |d| && At(d, s1.pos, EncodeAll(es))
    ensures ReadElem(d, lens, s).Done? && ReadElem(d, lens, s).value == Sequence(h, es)
    decreases es, 2
  {
    var stop := s1.pos + h.len;
    ElemsRoundTrip(d, lens, stop, es, s1);
    SequenceStep(d, lens, h, s, s1, stop);
  }

  /** parseDE on an encoding, wherever it stands in the one frame, rebuilds the element. */
  lemma {:induction false} ElemRoundTrip(d: seq<byte>, lens: seq<nat>, e: Elem, s: Scan)
    requires OneFrame(d, lens) && Legal(e) && At(d, s.pos, Encode(e))
    ensures ReadElem(d, lens, s).Done? && ReadElem(d, lens, s).value == e
    decreases e, 0
  {
    match e {
      case Leaf(h, b) => LeafRoundTrip(d, lens, h, b, s);
      case Sequence(h, es) =>
        AtSplit(d, s.pos, EncodeHeader(h), EncodeAll(es));
        HeaderRoundTrip(d, h, s);
        SequenceRoundTrip(d, lens, h, es, s, s.(pos := s.pos + HeaderSpan(h.size)));
    }
  }

  lemma FirstEncoding(d: seq<byte>, p: nat, es: seq<Elem>)
    requires es != [] && LegalAll(es) && At(d, p, EncodeAll(es))
    ensures Legal(es[0]) && LegalAll(es[1..])
    ensures At(d, p, Encode(es[0])) && At(d, p + |Encode(es[0])|, EncodeAll(es[1..]))
    ensures |EncodeAll(es)| == |Encode(es[0])| + |EncodeAll(es[1..])|
  {
    AtSplit(d, p, Encode(es[0]), EncodeAll(es[1..]));
  }

  lemma {:induction false} ElemsRoundTrip(d: seq<byte>, lens: seq<nat>, stop: nat, es: seq<Elem>, s: Scan)
    requires OneFrame(d, lens) && LegalAll(es) && s.pos <= |d| && At(d, s.pos, EncodeAll(es))
    requires stop == s.pos + |EncodeAll(es)|
    ensures ReadElems(d, lens, stop, s).Done? && ReadElems(d, lens, stop, s).value == es
    decreases es, 1
  {
    if es != [] {
      FirstEncoding(d, s.pos, es);
      var e, rest := es[0], es[1..];
      ElemRoundTrip(d, lens, e, s);
      EncodedSpan(d, lens, s, e);
      var s1 := ReadElem(d, lens, s).next;
      ElemsRoundTrip(d, lens, stop, rest, s1);
      ElemsStep(d, lens, stop, s, e, s1);
      assert es == [e] + rest;
    }
  }

  // ---------------------------------------------------------------- frame boundaries

  /** No payload of e, read from position pos, runs over the end of its frame. */
  predicate Fits(lens: seq<nat>, e: Elem, pos: nat)
  {
    match e
    case Leaf(h, Raw(text)) => |text| <= Room(lens, pos + HeaderSpan(h.size))
    case Leaf(h, Skipped(n)) => n <= Room(lens, pos + HeaderSpan(h.size))
    case Leaf(_, _) => true
    case Sequence(h, es) => FitsAll(lens, es, pos + HeaderSpan(h.size))
  }

  predicate FitsAll(lens: seq<nat>, es: seq<Elem>, pos: nat)
  {
    es == [] || (Fits(lens, es[0], pos) && FitsAll(lens, es[1..], pos + Span(es[0])))
  }

  lemma BodyFrames(d: seq<byte>, one: seq<nat>, lens: seq<nat>, h: Header, s: Scan)
    requires OneFrame(d, one) && Sum(lens) == |d| && s.pos <= |d|
    requires ReadBody(d, one, h, s).Done?
    ensures ReadBody(d, lens, h, s) == ReadBody(d, one, h, s)
       <==> (match ReadBody(d, one, h, s).value
             case Raw(text) => |text| <= Room(lens, s.pos)
             case Skipped(n) => n <= Room(lens, s.pos)
             case _ => true)
  {
  }

  /** An element that was read had its header read, and its elements or its body. */
  lemma HeaderRead(d: seq<byte>, lens: seq<nat>, s: Scan)
    requires Sum(lens) == |d| && ReadElem(d, lens, s).Done?
    ensures ReadHeader(d, s).Done?
    ensures var r := ReadHeader(d, s);
            if IsSequenceType(r.value.deType) then ReadElems(d, lens, r.next.pos + r.value.len, r.next).Done?
            else ReadBody(d, lens, r.value, r.next).Done?
  {
  }

  lemma LeafFrames(d: seq<byte>, one: seq<nat>, lens: seq<nat>, h: Header, s: Scan, s1: Scan)
    requires Sum(one) == |d| == Sum(lens) && s1.pos <= |d|
    requires ReadHeader(d, s) == Done(h, s1) && !IsSequenceType(h.deType)
    requires ReadBody(d, one, h, s1).Done?
    ensures ReadElem(d, lens, s) == ReadElem(d, one, s) <==> ReadBody(d, lens, h, s1) == ReadBody(d, one, h, s1)
  {
    LeafStep(d, one, h, s, s1);
    if ReadBody(d, lens, h, s1).Done? {
      LeafStep(d, lens, h, s, s1);
    } else {
      LeafAborts(d, lens, h, s, s1);
    }
  }

  lemma SequenceFrames(d: seq<byte>, one: seq<nat>, lens: seq<nat>, h: Header, s: Scan, s1: Scan, stop: nat)
    requires Sum(one) == |d| == Sum(lens) && s1.pos <= |d|
    requires ReadHeader(d, s) == Done(h, s1) && IsSequenceType(h.deType) && stop == s1.pos + h.len
    requires ReadElems(d, one, stop, s1).Done?
    ensures ReadElem(d, lens, s) == ReadElem(d, one, s) <==> ReadElems(d, lens, stop, s1) == ReadElems(d, one, stop, s1)
  {
    SequenceStep(d, one, h, s, s1, stop);
    if ReadElems(d, lens, stop, s1).Done? {
      SequenceStep(d, lens, h, s, s1, stop);
    } else {
      SequenceAborts(d, lens, h, s, s1, stop);
    }
  }

  /**
    Frame boundaries are invisible exactly when no string, URL, uuid-128 or skipped payload straddles
    one: headers, integers and short UUIDs may.
  */
  lemma {:induction false} FrameIndependence(d: seq<byte>, one: seq<nat>, lens: seq<nat>, s: Scan)
    requires OneFrame(d, one) && Sum(lens) == |d|
    requires ReadElem(d, one, s).Done?
    ensures ReadElem(d, lens, s) == ReadElem(d, one, s) <==> Fits(lens, ReadElem(d, one, s).value, s.pos)
    decreases |d| - s.pos, 0
  {
    HeaderRead(d, one, s);
    var h, s1 := ReadHeader(d, s).value, ReadHeader(d, s).next;
    if IsSequenceType(h.deType) {
      var stop := s1.pos + h.len;
      FrameIndependenceAll(d, one, lens, stop, s1);
      SequenceStep(d, one, h, s, s1, stop);
      SequenceFrames(d, one, lens, h, s, s1, stop);
    } else {
      BodyFrames(d, one, lens, h, s1);
      LeafStep(d, one, h, s, s1);
      LeafFrames(d, one, lens, h, s, s1);
    }
  }

  /** A sequence fits when its first element does and the others, from where that one ends. */
  lemma FitsFirst(lens: seq<nat>, e: Elem, es: seq<Elem>, all: seq<Elem>, pos: nat, pos1: nat)
    requires all == [e] + es && pos1 == pos + Span(e)
    ensures FitsAll(lens, all, pos) <==> Fits(lens, e, pos) && FitsAll(lens, es, pos1)
  {
    assert all[0] == e && all[1..] == es;
  }

  lemma FirstInjective(e: Elem, e': Elem, es: seq<Elem>, es': seq<Elem>)
    ensures [e] + es == [e'] + es' <==> e == e' && es == es'
  {
    var a, b := [e] + es, [e'] + es';
    assert a[0] == e && a[1..] == es && b[0] == e' && b[1..] == es';
  }

  /** Where two readings give the same element, they end at the same place. */
  lemma SameElemSameNext(d: seq<byte>, one: seq<nat>, lens: seq<nat>, s: Scan)
    requires Sum(one) == |d| && Sum(lens) == |d| && ReadElem(d, one, s).Done? && ReadElem(d, lens, s).Done?
    requires ReadElem(d, one, s).value == ReadElem(d, lens, s).value
    ensures ReadElem(d, one, s) == ReadElem(d, lens, s)
  {
    ReadElemLeadsTo(d, one, s);
    ReadElemLeadsTo(d, lens, s);
  }

  lemma ElemsFrames(d: seq<byte>, one: seq<nat>, lens: seq<nat>, stop: nat, s: Scan, e: Elem, s1: Scan)
    requires Sum(one) == |d| == Sum(lens) && s.pos < stop && s.pos <= |d|
    requires ReadElem(d, one, s) == Done(e, s1) && ReadElems(d, one, stop, s1).Done?
    ensures ReadElems(d, lens, stop, s) == ReadElems(d, one, stop, s)
       <==> ReadElem(d, lens, s) == Done(e, s1) && ReadElems(d, lens, stop, s1) == ReadElems(d, one, stop, s1)
  {
    ElemsStep(d, one, stop, s, e, s1);
    var m := ReadElem(d, lens, s);
    if m.Abort? || ReadElems(d, lens, stop, m.next).Abort? {
      ElemsAbort(d, lens, stop, s);
    } else {
      ElemsStep(d, lens, stop, s, m.value, m.next);
      FirstInjective(e, m.value, ReadElems(d, one, stop, s1).value, ReadElems(d, lens, stop, m.next).value);
      if m.value == e {
        SameElemSameNext(d, one, lens, s);
      }
    }
  }

  lemma ElemsRead(d: seq<byte>, lens: seq<nat>, stop: nat, s: Scan)
    requires Sum(lens) == |d| && s.pos < stop && s.pos <= |d| && ReadElems(d, lens, stop, s).Done?
    ensures ReadElem(d, lens, s).Done? && ReadElems(d, lens, stop, ReadElem(d, lens, s).next).Done?
  {
  }

  /** What reading a non-empty sequence in one frame gives. */
  lemma FirstRead(d: seq<byte>, lens: seq<nat>, stop: nat, s: Scan)
    requires Sum(lens) == |d| && s.pos < stop && s.pos <= |d| && ReadElems(d, lens, stop, s).Done?
    ensures var m := ReadElem(d, lens, s);
            m.Done? && m.next.pos == s.pos + Span(m.value) && ReadElems(d, lens, stop, m.next).Done?
            && ReadElems(d, lens, stop, s).value == [m.value] + ReadElems(d, lens, stop, m.next).value
  {
    ElemsRead(d, lens, stop, s);
    var m := ReadElem(d, lens, s);
    ElemsStep(d, lens, stop, s, m.value, m.next);
    ReadElemLeadsTo(d, lens, s);
  }

  lemma {:induction false} FrameIndependenceAll(d: seq<byte>, one: seq<nat>, lens: seq<nat>, stop: nat, s: Scan)
    requires OneFrame(d, one) && Sum(lens) == |d| && s.pos <= |d|
    requires ReadElems(d, one, stop, s).Done?
    ensures ReadElems(d, lens, stop, s) == ReadElems(d, one, stop, s)
       <==> FitsAll(lens, ReadElems(d, one, stop, s).value, s.pos)
    decreases |d| - s.pos, 1
  {
    if s.pos < stop {
      FirstRead(d, one, stop, s);
      var m, all := ReadElem(d, one, s), ReadElems(d, one, stop, s);
      var rest := ReadElems(d, one, stop, m.next);
      FrameIndependence(d, one, lens, s);
      FrameIndependenceAll(d, one, lens, stop, m.next);
      ElemsFrames(d, one, lens, stop, s, m.value, m.next);
      FitsFirst(lens, m.value, rest.value, all.value, s.pos, m.next.pos);
    }
  }
}
