/**
  The frame check sequence of RFCOMM frames (rfcomm.c FCS, crc_table; 3GPP TS 27.010, section 5.2.1.6
  and Annex B): a reversed CRC-8 with polynomial x^8 + x^2 + x + 1, computed with a table.
*/
module Fcs {
  import opened Folds

  /** crc_table, row by row: sixteen entries a row, as the source lays them out. */
  function CrcTable(i: bv8): (r: bv8)
  {
    var row, column := i >> 4, i & 0x0F;
    if row < 8 then
      if row < 4 then
        if row < 2 then if row == 0 then Row0(column) else Row1(column)
        else if row == 2 then Row2(column) else Row3(column)
      else if row < 6 then if row == 4 then Row4(column) else Row5(column)
      else if row == 6 then Row6(column) else Row7(column)
    else if row < 12 then
      if row < 10 then if row == 8 then Row8(column) else Row9(column)
      else if row == 10 then RowA(column) else RowB(column)
    else if row < 14 then if row == 12 then RowC(column) else RowD(column)
    else if row == 14 then RowE(column) else RowF(column)
  }

  function Entry(c: bv8, t0: bv8, t1: bv8, t2: bv8, t3: bv8, t4: bv8, t5: bv8, t6: bv8, t7: bv8,
                 t8: bv8, t9: bv8, tA: bv8, tB: bv8, tC: bv8, tD: bv8, tE: bv8, tF: bv8): (r: bv8)
  {
    match c
    case 0 => t0 case 1 => t1 case 2 => t2 case 3 => t3 case 4 => t4 case 5 => t5 case 6 => t6 case 7 => t7
    case 8 => t8 case 9 => t9 case 10 => tA case 11 => tB case 12 => tC case 13 => tD case 14 => tE case _ => tF
  }

  function Row0(c: bv8): (e: bv8) {
    Entry(c, 0x00, 0x91, 0xE3, 0x72, 0x07, 0x96, 0xE4, 0x75,
          0x0E, 0x9F, 0xED, 0x7C, 0x09, 0x98, 0xEA, 0x7B)
  }
  function Row1(c: bv8): (e: bv8) {
    Entry(c, 0x1C, 0x8D, 0xFF, 0x6E, 0x1B, 0x8A, 0xF8, 0x69,
          0x12, 0x83, 0xF1, 0x60, 0x15, 0x84, 0xF6, 0x67)
  }
  function Row2(c: bv8): (e: bv8) {
    Entry(c, 0x38, 0xA9, 0xDB, 0x4A, 0x3F, 0xAE, 0xDC, 0x4D,
          0x36, 0xA7, 0xD5, 0x44, 0x31, 0xA0, 0xD2, 0x43)
  }
  function Row3(c: bv8): (e: bv8) {
    Entry(c, 0x24, 0xB5, 0xC7, 0x56, 0x23, 0xB2, 0xC0, 0x51,
          0x2A, 0xBB, 0xC9, 0x58, 0x2D, 0xBC, 0xCE, 0x5F)
  }
  function Row4(c: bv8): (e: bv8) {
    Entry(c, 0x70, 0xE1, 0x93, 0x02, 0x77, 0xE6, 0x94, 0x05,
          0x7E, 0xEF, 0x9D, 0x0C, 0x79, 0xE8, 0x9A, 0x0B)
  }
  function Row5(c: bv8): (e: bv8) {
    Entry(c, 0x6C, 0xFD, 0x8F, 0x1E, 0x6B, 0xFA, 0x88, 0x19,
          0x62, 0xF3, 0x81, 0x10, 0x65, 0xF4, 0x86, 0x17)
  }
  function Row6(c: bv8): (e: bv8) {
    Entry(c, 0x48, 0xD9, 0xAB, 0x3A, 0x4F, 0xDE, 0xAC, 0x3D,
          0x46, 0xD7, 0xA5, 0x34, 0x41, 0xD0, 0xA2, 0x33)
  }
  function Row7(c: bv8): (e: bv8) {
    Entry(c, 0x54, 0xC5, 0xB7, 0x26, 0x53, 0xC2, 0xB0, 0x21,
          0x5A, 0xCB, 0xB9, 0x28, 0x5D, 0xCC, 0xBE, 0x2F)
  }
  function Row8(c: bv8): (e: bv8) {
    Entry(c, 0xE0, 0x71, 0x03, 0x92, 0xE7, 0x76, 0x04, 0x95,
          0xEE, 0x7F, 0x0D, 0x9C, 0xE9, 0x78, 0x0A, 0x9B)
  }
  function Row9(c: bv8): (e: bv8) {
    Entry(c, 0xFC, 0x6D, 0x1F, 0x8E, 0xFB, 0x6A, 0x18, 0x89,
          0xF2, 0x63, 0x11, 0x80, 0xF5, 0x64, 0x16, 0x87)
  }
  function RowA(c: bv8): (e: bv8) {
    Entry(c, 0xD8, 0x49, 0x3B, 0xAA, 0xDF, 0x4E, 0x3C, 0xAD,
          0xD6, 0x47, 0x35, 0xA4, 0xD1, 0x40, 0x32, 0xA3)
  }
  function RowB(c: bv8): (e: bv8) {
    Entry(c, 0xC4, 0x55, 0x27, 0xB6, 0xC3, 0x52, 0x20, 0xB1,
          0xCA, 0x5B, 0x29, 0xB8, 0xCD, 0x5C, 0x2E, 0xBF)
  }
  function RowC(c: bv8): (e: bv8) {
    Entry(c, 0x90, 0x01, 0x73, 0xE2, 0x97, 0x06, 0x74, 0xE5,
          0x9E, 0x0F, 0x7D, 0xEC, 0x99, 0x08, 0x7A, 0xEB)
  }
  function RowD(c: bv8): (e: bv8) {
    Entry(c, 0x8C, 0x1D, 0x6F, 0xFE, 0x8B, 0x1A, 0x68, 0xF9,
          0x82, 0x13, 0x61, 0xF0, 0x85, 0x14, 0x66, 0xF7)
  }
  function RowE(c: bv8): (e: bv8) {
    Entry(c, 0xA8, 0x39, 0x4B, 0xDA, 0xAF, 0x3E, 0x4C, 0xDD,
          0xA6, 0x37, 0x45, 0xD4, 0xA1, 0x30, 0x42, 0xD3)
  }
  function RowF(c: bv8): (e: bv8) {
    Entry(c, 0xB4, 0x25, 0x57, 0xC6, 0xB3, 0x22, 0x50, 0xC1,
          0xBA, 0x2B, 0x59, 0xC8, 0xBD, 0x2C, 0x5E, 0xCF)
  }

  const GOOD_FCS: bv8 := 0xCF

  // ---------------------------------------------------------------- the bit-by-bit definition

  /** One bit through the reversed shift register with taps 0xE0. */
  function Shift(r: bv8): (v: bv8)
  {
    if r & 1 == 1 then (r >> 1) ^ 0xE0 else r >> 1
  }

  /** One byte: eight bits, least significant first. */
  function ByteStep(r: bv8): (v: bv8)
  {
    Shift(Shift(Shift(Shift(Shift(Shift(Shift(Shift(r))))))))
  }

  /** One message byte into the register. */
  function ByteIn(r: bv8, b: bv8): (v: bv8)
  {
    ByteStep(r ^ b)
  }

  /** The register after a message, byte by byte. */
  function Register(r: bv8, msg: seq<bv8>): (v: bv8)
  {
    Run(ByteIn, r, msg)
  }

  /** The FCS: the ones complement of the register, started from all ones. */
  function Check(msg: seq<bv8>): (r: bv8)
  {
    0xFF - Register(0xFF, msg)
  }

  // ---------------------------------------------------------------- the table

  /** Every entry of the table is eight steps of the shift register. */
  lemma TableCorrect(i: bv8)
    ensures CrcTable(i) == ByteStep(i)
  {
  }

  lemma NextByte(p: seq<bv8>, i: nat)
    requires i < |p|
    ensures Register(0xFF, p[..i + 1]) == CrcTable(Register(0xFF, p[..i]) ^ p[i])
  {
    TableCorrect(Register(0xFF, p[..i]) ^ p[i]);
    RunPrefix(ByteIn, 0xFF, p, i);
  }

  /** FCS: the table-driven loop computes the bit-by-bit check of every message. */
  method FCS(p: seq<bv8>) returns (fcs: bv8)
    requires |p| < 256
    ensures fcs == Check(p)
  {
    fcs := 0xFF;
    var i := 0;
    while i < |p|
      invariant 0 <= i <= |p|
      invariant fcs == Register(0xFF, p[..i])
    {
      NextByte(p, i);
      fcs := CrcTable(fcs ^ p[i]);
      i := i + 1;
    }
    assert p[..i] == p;
    fcs := 0xFF - fcs;
  }

  // ---------------------------------------------------------------- what the check detects

  /** The table is a permutation. */
  lemma StepInjective(a: bv8, b: bv8)
    requires a != b
    ensures ByteStep(a) != ByteStep(b)
  {
  }

  lemma Complement(r: bv8)
    ensures r ^ (0xFF - r) == 0xFF
  {
  }

  lemma XorCancels(r: bv8, a: bv8, b: bv8)
    requires r ^ a == r ^ b
    ensures a == b
  {
    assert r ^ (r ^ a) == a && r ^ (r ^ b) == b;
  }

  /** A receiver that runs the register over message and FCS ends at 0xCF exactly when the FCS is right. */
  lemma GoodResidue(msg: seq<bv8>, fcs: bv8)
    ensures Register(0xFF, msg + [fcs]) == GOOD_FCS <==> fcs == Check(msg)
  {
    var r := Register(0xFF, msg);
    RunSnoc(ByteIn, 0xFF, msg, fcs);
    Complement(r);
    TableCorrect(0xFF);
    assert CrcTable(0xFF) == GOOD_FCS;
    if ByteStep(r ^ fcs) == GOOD_FCS {
      if r ^ fcs != 0xFF { StepInjective(r ^ fcs, 0xFF); }
      XorCancels(r, fcs, 0xFF - r);
    }
  }

  lemma NewDifference(r: bv8, x: bv8, y: bv8)
    requires x != y
    ensures ByteStep(r ^ x) != ByteStep(r ^ y)
  {
    assert r ^ x != r ^ y;
    StepInjective(r ^ x, r ^ y);
  }

  lemma OldDifference(r: bv8, s: bv8, x: bv8)
    requires r != s
    ensures ByteStep(r ^ x) != ByteStep(s ^ x)
  {
    assert r ^ x != s ^ x;
    StepInjective(r ^ x, s ^ x);
  }

  lemma ComplementInjective(r: bv8, s: bv8)
    requires r != s
    ensures 0xFF - r != 0xFF - s
  {
  }

  /** Messages that differ in exactly one byte have different checks. */
  lemma OneByteDetected(a: seq<bv8>, b: seq<bv8>, k: nat)
    requires |a| == |b| && k < |a| && a[k] != b[k]
    requires forall i | 0 <= i < |a| && i != k :: a[i] == b[i]
    ensures Check(a) != Check(b)
  {
    forall r, x, y | x != y ensures ByteIn(r, x) != ByteIn(r, y) {
      NewDifference(r, x, y);
    }
    forall r, s, x | r != s ensures ByteIn(r, x) != ByteIn(s, x) {
      OldDifference(r, s, x);
    }
    DifferenceKept(ByteIn, 0xFF, a, b, k);
    ComplementInjective(Register(0xFF, a), Register(0xFF, b));
  }

  /** The exclusive or of all the bits, in bit 0. */
  function Fold4(b: bv8): (r: bv8) { b ^ (b >> 4) }
  function Fold2(b: bv8): (r: bv8) { b ^ (b >> 2) }
  function Fold1(b: bv8): (r: bv8) { b ^ (b >> 1) }

  /** Whether the number of one bits is odd. */
  function Odd(b: bv8): (r: bool)
  {
    Fold1(Fold2(Fold4(b))) & 1 == 1
  }

  /** Whether the number of one bits in a message is odd. */
  function OddMessage(msg: seq<bv8>): (r: bool)
  {
    Run((odd: bool, b: bv8) => odd != Odd(b), false, msg)
  }

  lemma ShiftKeepsParity(r: bv8)
    ensures Odd(Shift(r)) == Odd(r)
  {
  }

  lemma StepKeepsParity(r: bv8)
    ensures Odd(ByteStep(r)) == Odd(r)
  {
    var r1 := Shift(r);
    var r2 := Shift(r1);
    var r3 := Shift(r2);
    var r4 := Shift(r3);
    var r5 := Shift(r4);
    var r6 := Shift(r5);
    ShiftKeepsParity(r);
    ShiftKeepsParity(r1);
    ShiftKeepsParity(r2);
    ShiftKeepsParity(r3);
    ShiftKeepsParity(r4);
    ShiftKeepsParity(r5);
    ShiftKeepsParity(r6);
    ShiftKeepsParity(Shift(r6));
  }

  lemma Shift4Xor(a: bv8, b: bv8) ensures (a ^ b) >> 4 == (a >> 4) ^ (b >> 4) {}
  lemma Shift2Xor(a: bv8, b: bv8) ensures (a ^ b) >> 2 == (a >> 2) ^ (b >> 2) {}
  lemma Shift1Xor(a: bv8, b: bv8) ensures (a ^ b) >> 1 == (a >> 1) ^ (b >> 1) {}
  lemma XorSwap(a: bv8, b: bv8, c: bv8, d: bv8) ensures (a ^ b) ^ (c ^ d) == (a ^ c) ^ (b ^ d) {}
  lemma LowXor(a: bv8, b: bv8) ensures ((a ^ b) & 1 == 1) == ((a & 1 == 1) != (b & 1 == 1)) {}

  lemma Fold4Xor(a: bv8, b: bv8)
    ensures Fold4(a ^ b) == Fold4(a) ^ Fold4(b)
  {
    Shift4Xor(a, b);
    XorSwap(a, b, a >> 4, b >> 4);
  }

  lemma Fold2Xor(a: bv8, b: bv8)
    ensures Fold2(a ^ b) == Fold2(a) ^ Fold2(b)
  {
    Shift2Xor(a, b);
    XorSwap(a, b, a >> 2, b >> 2);
  }

  lemma Fold1Xor(a: bv8, b: bv8)
    ensures Fold1(a ^ b) == Fold1(a) ^ Fold1(b)
  {
    Shift1Xor(a, b);
    XorSwap(a, b, a >> 1, b >> 1);
  }

  lemma OddXor(a: bv8, b: bv8)
    ensures Odd(a ^ b) == (Odd(a) != Odd(b))
  {
    calc {
      Odd(a ^ b);
      { Fold4Xor(a, b); }
      Fold1(Fold2(Fold4(a) ^ Fold4(b))) & 1 == 1;
      { Fold2Xor(Fold4(a), Fold4(b)); }
      Fold1(Fold2(Fold4(a)) ^ Fold2(Fold4(b))) & 1 == 1;
      { Fold1Xor(Fold2(Fold4(a)), Fold2(Fold4(b))); }
      (Fold1(Fold2(Fold4(a))) ^ Fold1(Fold2(Fold4(b)))) & 1 == 1;
      { LowXor(Fold1(Fold2(Fold4(a))), Fold1(Fold2(Fold4(b)))); }
      Odd(a) != Odd(b);
    }
  }

  lemma ParityStep(r: bv8, x: bv8)
    ensures Odd(ByteIn(r, x)) == (Odd(r) != Odd(x))
  {
    StepKeepsParity(r ^ x);
    OddXor(r, x);
  }

  /** Any odd number of flipped bits, wherever they are, changes the check: x + 1 divides the polynomial. */
  lemma OddErrorsDetected(a: seq<bv8>, b: seq<bv8>)
    requires OddMessage(a) != OddMessage(b)
    ensures Check(a) != Check(b)
  {
    forall r, x ensures Odd(ByteIn(r, x)) == (Odd(r) != Odd(x)) {
      ParityStep(r, x);
    }
    var f := (odd: bool, b: bv8) => odd != Odd(b);
    RunHomomorphism(ByteIn, f, Odd, 0xFF, a);
    RunHomomorphism(ByteIn, f, Odd, 0xFF, b);
    ComplementInjective(Register(0xFF, a), Register(0xFF, b));
  }
}
