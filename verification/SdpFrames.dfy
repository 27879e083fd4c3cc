/** Where a stream position lies in a list of separately stored frames. */
module SdpFrames {
  import opened Bytes
  import opened SdpElements

  function Lens(fs: seq<seq<byte>>): (r: seq<nat>)
    ensures |r| == |fs|
  {
    if fs == [] then [] else [|fs[0]|] + Lens(fs[1..])
  }

  /** The stream position of the first byte of frame k. */
  function Offset(fs: seq<seq<byte>>, k: nat): (r: nat)
    requires k <= |fs|
  {
    if k == 0 then 0 else |fs[0]| + Offset(fs[1..], k - 1)
  }

  lemma {:induction false} SumLens(fs: seq<seq<byte>>)
    ensures Sum(Lens(fs)) == |Flatten(fs)|
  {
    if fs != [] {
      SumLens(fs[1..]);
      assert Lens(fs)[1..] == Lens(fs[1..]);
    }
  }

  lemma {:induction false} OffsetStep(fs: seq<seq<byte>>, k: nat)
    requires k < |fs|
    ensures Offset(fs, k + 1) == Offset(fs, k) + |fs[k]|
  {
    if k > 0 {
      OffsetStep(fs[1..], k - 1);
    }
  }

  lemma {:induction false} OffsetEnd(fs: seq<seq<byte>>)
    ensures Offset(fs, |fs|) == |Flatten(fs)|
  {
    if fs != [] {
      OffsetEnd(fs[1..]);
    }
  }

  /** Byte p of frame k is byte Offset(k) + p of the stream, with the rest of the frame as its room. */
  lemma {:induction false} Locate(fs: seq<seq<byte>>, k: nat, p: nat)
    requires k < |fs| && p < |fs[k]|
    ensures Offset(fs, k) + |fs[k]| <= |Flatten(fs)|
    ensures Flatten(fs)[Offset(fs, k) + p] == fs[k][p]
    ensures Room(Lens(fs), Offset(fs, k) + p) == |fs[k]| - p
  {
    assert Lens(fs)[1..] == Lens(fs[1..]);
    if k > 0 {
      Locate(fs[1..], k - 1, p);
    }
  }

  /** The same for a run of bytes inside one frame. */
  lemma {:induction false} LocateSlice(fs: seq<seq<byte>>, k: nat, p: nat, n: nat)
    requires k < |fs| && p + n <= |fs[k]|
    ensures Offset(fs, k) + p + n <= |Flatten(fs)|
    ensures Flatten(fs)[Offset(fs, k) + p..Offset(fs, k) + p + n] == fs[k][p..p + n]
  {
    var rest := Flatten(fs[1..]);
    if k == 0 {
      assert (fs[0] + rest)[p..p + n] == fs[0][p..p + n];
    } else {
      LocateSlice(fs[1..], k - 1, p, n);
      var q := Offset(fs[1..], k - 1) + p;
      assert (fs[0] + rest)[|fs[0]| + q..|fs[0]| + q + n] == rest[q..q + n];
    }
  }

  /** Frame k, what precedes it and what follows it make up the stream. */
  lemma {:induction false} Conserved(fs: seq<seq<byte>>, k: nat)
    requires k < |fs|
    ensures Offset(fs, k) + |fs[k]| + |Flatten(fs[k + 1..])| == |Flatten(fs)|
  {
    if k > 0 {
      Conserved(fs[1..], k - 1);
      assert fs[1..][k..] == fs[k + 1..];
    }
  }

  lemma {:induction false} RoomAtEnd(lens: seq<nat>)
    ensures Room(lens, Sum(lens)) == 0
  {
  }

  /** Read j bytes and then k bytes, most significant first. */
  function ReadPair(d: seq<byte>, s: Scan, j: nat, k: nat): (r: Parsed<nat>)
  {
    match ReadNumber(d, s, j)
    case Abort => Abort
    case Done(a, s1) =>
      match ReadNumber(d, s1, k)
      case Abort => Abort
      case Done(b, s2) => Done(Join(a, k, b), s2)
  }

  lemma ReadConcat(d: seq<byte>, s: Scan, j: nat, k: nat)
    ensures ReadNumber(d, s, j + k) == ReadPair(d, s, j, k)
  {
    if s.pos + j + k <= |d| {
      var a, b := d[s.pos..s.pos + j], d[s.pos + j..s.pos + j + k];
      assert d[s.pos..s.pos + (j + k)] == a + b;
      BeConcat(a, b);
    }
  }

  lemma ReadOne(d: seq<byte>, s: Scan)
    ensures s.pos < |d| ==> ReadNumber(d, s, 1) == Done(d[s.pos] as nat, s.(pos := s.pos + 1))
  {
  }

  /** A read of up to four bytes written out: the value, or an abort at the first missing byte. */
  lemma ReadTwo(d: seq<byte>, s: Scan)
    ensures ReadNumber(d, s, 2)
         == if s.pos + 2 <= |d| then Done(Be2(d[s.pos], d[s.pos + 1]), s.(pos := s.pos + 2)) else Abort
  {
    ReadConcat(d, s, 1, 1);
    ReadOne(d, s);
    ReadOne(d, s.(pos := s.pos + 1));
  }

  lemma ReadFour(d: seq<byte>, s: Scan)
    ensures ReadNumber(d, s, 4)
         == if s.pos + 4 <= |d|
            then Done(Be4(d[s.pos], d[s.pos + 1], d[s.pos + 2], d[s.pos + 3]), s.(pos := s.pos + 4))
            else Abort
  {
    ReadConcat(d, s, 2, 2);
    ReadTwo(d, s);
    ReadTwo(d, s.(pos := s.pos + 2));
    assert Pow256(2) == 0x1_0000;
  }
}
