/**
  SDP data elements (Bluetooth Core Specification, Vol 3 Part B, sections 3.1 to 3.3):
  what sdp_parser.c prints, how a server encodes it, and the meaning of a parse.

  A scan is the abstract state of the parser: how many bytes it has consumed, the static flag that
  says the next uint8 is an RFCOMM channel, and the channel found so far. Frame boundaries enter
  only through Room, the number of bytes left in the current frame.
*/
module SdpElements {
  import opened Bytes

  const RFCOMM_UUID := 3

  const DE_NULL := 0
  const DE_UINT := 1
  const DE_INT := 2
  const DE_UUID := 3
  const DE_STRING := 4
  const DE_BOOL := 5
  const DE_SEQ := 6
  const DE_ALT := 7
  const DE_URL := 8

  /** A data element header: type, size index and the length the size index stands for. */
  datatype Header = Header(deType: nat, size: nat, len: nat)

  datatype Body =
    | Nothing                  // nil: no payload is consumed
    | Number(v: nat)           // integers, booleans and short UUIDs
    | Raw(text: seq<byte>)     // strings, URLs and uuid-128
    | Skipped(n: nat)          // a payload of unknown type or odd size, stepped over
    | Refused                  // a payload longer than the rest of the frame: the cursor stays

  datatype Elem = Leaf(h: Header, body: Body) | Sequence(h: Header, elems: seq<Elem>)

  datatype Scan = Scan(pos: nat, armed: bool, channel: byte)

  /** Abort stands for a failed assertion, a read through the null cursor or an overflowing length. */
  datatype Parsed<+T> = Abort | Done(value: T, next: Scan)

  /** The number of length bytes that follow a header with this size index. */
  function LengthBytes(size: nat): (r: nat)
  {
    if size == 5 then 1 else if size == 6 then 2 else if size == 7 then 4 else 0
  }

  /** The payload size that a size index below 5 stands for. */
  function FixedSize(size: nat): (r: nat)
  {
    if size == 0 then 1 else if size == 1 then 2 else if size == 2 then 4 else if size == 3 then 8 else 16
  }

  predicate IsIntType(t: nat) { t == DE_UINT || t == DE_INT || t == DE_BOOL }
  predicate IsTextType(t: nat) { t == DE_STRING || t == DE_URL }
  predicate IsSequenceType(t: nat) { t == DE_SEQ || t == DE_ALT }
  predicate IsIntSize(n: nat) { n == 1 || n == 2 || n == 4 || n == 8 || n == 16 }

  function Sum(lens: seq<nat>): (r: nat)
  {
    if lens == [] then 0 else lens[0] + Sum(lens[1..])
  }

  /** The number of bytes left in the frame that holds stream position pos. */
  function Room(lens: seq<nat>, pos: nat): (r: nat)
    ensures pos <= Sum(lens) ==> pos + r <= Sum(lens)
  {
    if lens == [] then 0
    else if pos < lens[0] then lens[0] - pos
    else Room(lens[1..], pos - lens[0])
  }

  // ---------------------------------------------------------------- the meaning of a parse

  function ReadNumber(d: seq<byte>, s: Scan, k: nat): (r: Parsed<nat>)
  {
    if s.pos + k <= |d| then Done(FromBe(d[s.pos..s.pos + k]), s.(pos := s.pos + k)) else Abort
  }

  function ReadHeader(d: seq<byte>, s: Scan): (r: Parsed<Header>)
    ensures r.Done? ==> r.value.size < 8 && r.next == s.(pos := s.pos + HeaderSpan(r.value.size)) && r.next.pos <= |d|
  {
    if s.pos >= |d| then Abort
    else
      var t, size := d[s.pos] / 8, d[s.pos] % 8;
      var s1 := s.(pos := s.pos + 1);
      if size < 5 then Done(Header(t, size, FixedSize(size)), s1)
      else
        match ReadNumber(d, s1, LengthBytes(size))
        case Abort => Abort
        case Done(n, s2) => if n < 0x8000_0000 then Done(Header(t, size, n), s2) else Abort
  }

  /** A payload read through the cursor and then stepped over. */
  function ReadRaw(d: seq<byte>, lens: seq<nat>, s: Scan, n: nat): (r: Parsed<Body>)
  {
    if n > 0 && s.pos >= |d| then Abort
    else if n <= Room(lens, s.pos) && s.pos + n <= |d| then Done(Raw(d[s.pos..s.pos + n]), s.(pos := s.pos + n))
    else Done(Refused, s)
  }

  function SkipRaw(lens: seq<nat>, s: Scan, n: nat): (r: Parsed<Body>)
  {
    if n <= Room(lens, s.pos) then Done(Skipped(n), s.(pos := s.pos + n)) else Done(Refused, s)
  }

  /** A uint8 is taken for the channel when the flag is set, and clears it. */
  function TakeChannel(h: Header, v: nat, s: Scan): (r: Scan)
  {
    if h.deType == DE_UINT && h.len == 1 && s.armed then s.(armed := false, channel := v % 256) else s
  }

  /** printInt. */
  function ReadInt(d: seq<byte>, lens: seq<nat>, h: Header, s: Scan): (r: Parsed<Body>)
  {
    if !IsIntSize(h.len) then SkipRaw(lens, s, h.len)
    else
      match ReadNumber(d, s, h.len)
      case Abort => Abort
      case Done(v, s') => Done(Number(v), TakeChannel(h, v, s'))
  }

  /** printUUID. */
  function ReadUuid(d: seq<byte>, lens: seq<nat>, h: Header, s: Scan): (r: Parsed<Body>)
  {
    if h.len == 16 then ReadRaw(d, lens, s, 16)
    else if h.len != 2 && h.len != 4 then SkipRaw(lens, s, h.len)
    else
      match ReadNumber(d, s, h.len)
      case Abort => Abort
      case Done(v, s') => Done(Number(v), s'.(armed := v == RFCOMM_UUID))
  }

  function ReadBody(d: seq<byte>, lens: seq<nat>, h: Header, s: Scan): (r: Parsed<Body>)
    requires Sum(lens) == |d| && s.pos <= |d|
    ensures r.Done? ==> s.pos <= r.next.pos <= |d|
  {
    if h.deType == DE_NULL then Done(Nothing, s)
    else if IsIntType(h.deType) then ReadInt(d, lens, h, s)
    else if h.deType == DE_UUID then ReadUuid(d, lens, h, s)
    else if IsTextType(h.deType) then ReadRaw(d, lens, s, h.len)
    else SkipRaw(lens, s, h.len)
  }

  /** What one call of parseDE reads. */
  function ReadElem(d: seq<byte>, lens: seq<nat>, s: Scan): (r: Parsed<Elem>)
    requires Sum(lens) == |d|
    ensures r.Done? ==> s.pos < r.next.pos <= |d|
    decreases |d| - s.pos, 0
  {
    match ReadHeader(d, s)
    case Abort => Abort
    case Done(h, s1) =>
      if IsSequenceType(h.deType) then
        match ReadElems(d, lens, s1.pos + h.len, s1)
        case Abort => Abort
        case Done(es, s2) => Done(Sequence(h, es), s2)
      else
        match ReadBody(d, lens, h, s1)
        case Abort => Abort
        case Done(b, s2) => Done(Leaf(h, b), s2)
  }

  /** What the loop of parseDEs reads until the cursor reaches stop. */
  function ReadElems(d: seq<byte>, lens: seq<nat>, stop: nat, s: Scan): (r: Parsed<seq<Elem>>)
    requires Sum(lens) == |d| && s.pos <= |d|
    ensures r.Done? ==> s.pos <= r.next.pos <= |d|
    decreases |d| - s.pos, 1
  {
    if stop <= s.pos then Done([], s)
    else
      match ReadElem(d, lens, s)
      case Abort => Abort
      case Done(e, s1) =>
        match ReadElems(d, lens, stop, s1)
        case Abort => Abort
        case Done(es, s2) => Done([e] + es, s2)
  }

  // ---------------------------------------------------------------- spans and leaves

  function HeaderSpan(size: nat): (r: nat)
  {
    1 + LengthBytes(size)
  }

  function BodySpan(h: Header, b: Body): (r: nat)
  {
    match b
    case Nothing => 0
    case Number(_) => h.len
    case Raw(text) => |text|
    case Skipped(n) => n
    case Refused => 0
  }

  /** The number of stream bytes an element stands for. */
  function Span(e: Elem): (r: nat)
  {
    match e
    case Leaf(h, b) => HeaderSpan(h.size) + BodySpan(h, b)
    case Sequence(h, es) => HeaderSpan(h.size) + SpanAll(es)
  }

  function SpanAll(es: seq<Elem>): (r: nat)
  {
    if es == [] then 0 else Span(es[0]) + SpanAll(es[1..])
  }

  /** The leaves of an element from left to right. */
  function Leaves(e: Elem): (r: seq<Elem>)
  {
    match e
    case Leaf(_, _) => [e]
    case Sequence(_, es) => LeavesAll(es)
  }

  function LeavesAll(es: seq<Elem>): (r: seq<Elem>)
  {
    if es == [] then [] else Leaves(es[0]) + LeavesAll(es[1..])
  }

  /** The channel extractor: flag and channel. */
  datatype Extractor = Extractor(armed: bool, channel: byte)

  /** A short UUID sets the flag exactly when it is RFCOMM's; an armed uint8 is consumed. */
  function OneLeaf(x: Extractor, leaf: Elem): (r: Extractor)
  {
    if leaf.Leaf? && leaf.body.Number? && leaf.h.deType == DE_UUID then
      x.(armed := leaf.body.v == RFCOMM_UUID)
    else if leaf.Leaf? && leaf.body.Number? && leaf.h.deType == DE_UINT && leaf.h.len == 1 && x.armed then
      Extractor(false, leaf.body.v % 256)
    else x
  }

  function FoldLeaves(x: Extractor, leaves: seq<Elem>): (r: Extractor)
    decreases |leaves|
  {
    if leaves == [] then x else FoldLeaves(OneLeaf(x, leaves[0]), leaves[1..])
  }

  function ExtractorOf(s: Scan): (r: Extractor) { Extractor(s.armed, s.channel) }

  lemma {:induction false} FoldConcat(x: Extractor, a: seq<Elem>, b: seq<Elem>)
    ensures FoldLeaves(x, a + b) == FoldLeaves(FoldLeaves(x, a), b)
    decreases |a|
  {
    if a == [] {
      assert a + b == b;
    } else {
      assert (a + b)[0] == a[0] && (a + b)[1..] == a[1..] + b;
      FoldConcat(OneLeaf(x, a[0]), a[1..], b);
    }
  }

  // ---------------------------------------------------------------- the encoding

  function EncodeHeader(h: Header): (r: seq<byte>)
  {
    [(h.deType * 8 + h.size) % 256] + ToBe(h.len, LengthBytes(h.size))
  }

  /** The headers Vol 3 Part B, section 3.3 allows, with a length the field can hold. */
  predicate LegalHeader(h: Header)
  {
    && h.deType <= DE_URL && h.size < 8
    && (h.size < 5 ==> h.len == FixedSize(h.size))
    && (h.size >= 5 ==> h.len < Pow256(LengthBytes(h.size)) && h.len < 0x8000_0000)
    && (h.deType == DE_NULL || h.deType == DE_BOOL ==> h.size == 0)
    && (h.deType == DE_UINT || h.deType == DE_INT ==> h.size <= 4)
    && (h.deType == DE_UUID ==> h.size == 1 || h.size == 2 || h.size == 4)
    && (IsTextType(h.deType) || IsSequenceType(h.deType) ==> h.size >= 5)
  }

  /** The elements a conforming server sends, nested to any depth. */
  predicate Legal(e: Elem)
  {
    match e
    case Leaf(h, b) =>
      && LegalHeader(h)
      && !IsSequenceType(h.deType)
      && (match b
          case Nothing => h.deType == DE_NULL
          case Number(v) => v < Pow256(h.len) && (IsIntType(h.deType) || (h.deType == DE_UUID && h.len <= 4))
          case Raw(text) => |text| == h.len && (IsTextType(h.deType) || (h.deType == DE_UUID && h.len == 16))
          case _ => false)
    case Sequence(h, es) =>
      LegalHeader(h) && IsSequenceType(h.deType) && LegalAll(es) && h.len == |EncodeAll(es)|
  }

  predicate LegalAll(es: seq<Elem>)
  {
    es == [] || (Legal(es[0]) && LegalAll(es[1..]))
  }

  function EncodeBody(h: Header, b: Body): (r: seq<byte>)
  {
    match b
    case Number(v) => ToBe(v, h.len)
    case Raw(text) => text
    case _ => []
  }

  function Encode(e: Elem): (r: seq<byte>)
  {
    match e
    case Leaf(h, b) => EncodeHeader(h) + EncodeBody(h, b)
    case Sequence(h, es) => EncodeHeader(h) + EncodeAll(es)
  }

  function EncodeAll(es: seq<Elem>): (r: seq<byte>)
  {
    if es == [] then [] else Encode(es[0]) + EncodeAll(es[1..])
  }
}
