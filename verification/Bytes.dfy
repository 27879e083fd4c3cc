/** Bytes, 16-bit words and the two byte orders the stack uses. */
module Bytes {

  type byte = x: int | 0 <= x < 256

  type word = x: int | 0 <= x < 0x1_0000

  datatype Option<+T> = None | Some(value: T)

  function Flatten<T>(pieces: seq<seq<T>>): (s: seq<T>)
  {
    if pieces == [] then [] else pieces[0] + Flatten(pieces[1..])
  }

  lemma FlattenOne<T>(s: seq<T>)
    ensures Flatten([s]) == s
  {
    assert [s][1..] == [];
  }

  lemma FlattenConcat<T>(a: seq<seq<T>>, b: seq<seq<T>>)
    ensures Flatten(a + b) == Flatten(a) + Flatten(b)
  {
    if a == [] {
      assert a + b == b;
    } else {
      assert (a + b)[0] == a[0] && (a + b)[1..] == a[1..] + b;
      FlattenConcat(a[1..], b);
    }
  }

  lemma FlattenSnoc<T>(a: seq<seq<T>>, s: seq<T>)
    ensures Flatten(a + [s]) == Flatten(a) + s
  {
    FlattenConcat(a, [s]);
    FlattenOne(s);
  }

  /** Little-endian 16-bit word, as the HCI and L2CAP headers carry it. */
  function Le16(w: word): (s: seq<byte>)
    ensures |s| == 2
  {
    [w % 256, w / 256]
  }

  function FromLe16(lo: byte, hi: byte): (w: word)
  {
    lo + 256 * hi
  }

  lemma Le16RoundTrip(w: word)
    ensures FromLe16(Le16(w)[0], Le16(w)[1]) == w
  {
  }

  /** 256 to the power k. */
  function Pow256(k: nat): (p: nat)
    ensures p > 0
  {
    if k == 0 then 1 else 256 * Pow256(k - 1)
  }

  /** The number a big-endian byte string spells. */
  function FromBe(s: seq<byte>): (v: nat)
    ensures v < Pow256(|s|)
  {
    if s == [] then 0 else 256 * FromBe(s[..|s| - 1]) + s[|s| - 1]
  }

  /** Two and four bytes, most significant first. */
  function Be2(b1: nat, b0: nat): (r: nat) { 0x100 * b1 + b0 }

  function Be4(b3: nat, b2: nat, b1: nat, b0: nat): (r: nat) { 0x100_0000 * b3 + 0x1_0000 * b2 + 0x100 * b1 + b0 }

  /** v as k big-endian bytes (the low 8k bits of v). */
  function ToBe(v: nat, k: nat): (s: seq<byte>)
    ensures |s| == k
  {
    if k == 0 then [] else ToBe(v / 256, k - 1) + [v % 256]
  }

  lemma {:induction false} BeRoundTrip(v: nat, k: nat)
    requires v < Pow256(k)
    ensures FromBe(ToBe(v, k)) == v
  {
    if k > 0 {
      BeRoundTrip(v / 256, k - 1);
      assert ToBe(v, k)[..k - 1] == ToBe(v / 256, k - 1);
    }
  }

  /** a in front of a k-byte number b. */
  function Join(a: nat, k: nat, b: nat): (r: nat) { a * Pow256(k) + b }

  lemma {:induction false} BeConcat(a: seq<byte>, b: seq<byte>)
    ensures FromBe(a + b) == Join(FromBe(a), |b|, FromBe(b))
    decreases |b|
  {
    if b == [] {
      assert a + b == a;
    } else {
      var b' := b[..|b| - 1];
      BeConcat(a, b');
      assert (a + b)[..|a + b| - 1] == a + b';
      ShiftIn(FromBe(a), Pow256(|b'|), FromBe(b'), b[|b| - 1]);
    }
  }

  lemma ShiftIn(x: nat, p: nat, y: nat, c: nat)
    ensures 256 * (x * p + y) + c == x * (256 * p) + (256 * y + c)
  {
    assert x * (256 * p) == 256 * (x * p);
  }
}
