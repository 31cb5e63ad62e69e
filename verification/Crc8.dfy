/** The CRC-8, by table and by division. The register is as wide as a byte, so the
    program's step is a single lookup with the byte added to the register, and division
    of a byte is eight steps without a message once the byte has been added. Eight steps
    lose nothing, so that two messages of one length that differ in a single byte always
    have different checksums. The table stands here as the program has it, sixteen
    entries to a row, and each entry is shown to be the remainder of its index. */
module Crc8 {
  const POLYNOMIAL: bv8 := 0x07

  // ---- words ----

  function Xor(x: bv8, y: bv8): bv8 {
    x ^ y
  }

  /** Shifts one bit out. */
  function Shift(c: bv8): bv8 {
    c << 1
  }

  /** The bit that a shift loses. */
  function Out(c: bv8): bool {
    c & 0x80 != 0
  }

  // ---- bit-at-a-time division ----

  /** One step of the division, for one bit of the message. */
  function DivideBit(c: bv8, bit: bool): bv8 {
    if Out(c) != bit then Xor(Shift(c), POLYNOMIAL) else Shift(c)
  }

  /** The first bit of a byte in the order of transmission. */
  function First(b: bv8): bool {
    b & 0x80 != 0
  }

  function Next(b: bv8): bv8 {
    b << 1
  }

  function DivideBits(c: bv8, b: bv8, n: nat): bv8
    decreases n
  {
    if n == 0 then c else DivideBits(DivideBit(c, First(b)), Next(b), n - 1)
  }

  /** The remainder after a whole message, from a given start. */
  function Divide(c: bv8, message: seq<bv8>): bv8
    decreases |message|
  {
    if message == [] then c else Divide(DivideBits(c, message[0], 8), message[1..])
  }

  // ---- the program ----

  function Pick(k: bv8, e0: bv8, e1: bv8, e2: bv8, e3: bv8, e4: bv8, e5: bv8, e6: bv8, e7: bv8,
                e8: bv8, e9: bv8, eA: bv8, eB: bv8, eC: bv8, eD: bv8, eE: bv8, eF: bv8): bv8 {
    if k == 0 then e0 else if k == 1 then e1 else if k == 2 then e2 else if k == 3 then e3 else
    if k == 4 then e4 else if k == 5 then e5 else if k == 6 then e6 else if k == 7 then e7 else
    if k == 8 then e8 else if k == 9 then e9 else if k == 10 then eA else if k == 11 then eB else
    if k == 12 then eC else if k == 13 then eD else if k == 14 then eE else eF
  }

  function Row0(k: bv8): bv8 {
    Pick(k, 0x00, 0x07, 0x0E, 0x09, 0x1C, 0x1B, 0x12, 0x15, 0x38, 0x3F, 0x36, 0x31, 0x24, 0x23, 0x2A, 0x2D)
  }

  function Row1(k: bv8): bv8 {
    Pick(k, 0x70, 0x77, 0x7E, 0x79, 0x6C, 0x6B, 0x62, 0x65, 0x48, 0x4F, 0x46, 0x41, 0x54, 0x53, 0x5A, 0x5D)
  }

  function Row2(k: bv8): bv8 {
    Pick(k, 0xE0, 0xE7, 0xEE, 0xE9, 0xFC, 0xFB, 0xF2, 0xF5, 0xD8, 0xDF, 0xD6, 0xD1, 0xC4, 0xC3, 0xCA, 0xCD)
  }

  function Row3(k: bv8): bv8 {
    Pick(k, 0x90, 0x97, 0x9E, 0x99, 0x8C, 0x8B, 0x82, 0x85, 0xA8, 0xAF, 0xA6, 0xA1, 0xB4, 0xB3, 0xBA, 0xBD)
  }

  function Row4(k: bv8): bv8 {
    Pick(k, 0xC7, 0xC0, 0xC9, 0xCE, 0xDB, 0xDC, 0xD5, 0xD2, 0xFF, 0xF8, 0xF1, 0xF6, 0xE3, 0xE4, 0xED, 0xEA)
  }

  function Row5(k: bv8): bv8 {
    Pick(k, 0xB7, 0xB0, 0xB9, 0xBE, 0xAB, 0xAC, 0xA5, 0xA2, 0x8F, 0x88, 0x81, 0x86, 0x93, 0x94, 0x9D, 0x9A)
  }

  function Row6(k: bv8): bv8 {
    Pick(k, 0x27, 0x20, 0x29, 0x2E, 0x3B, 0x3C, 0x35, 0x32, 0x1F, 0x18, 0x11, 0x16, 0x03, 0x04, 0x0D, 0x0A)
  }

  function Row7(k: bv8): bv8 {
    Pick(k, 0x57, 0x50, 0x59, 0x5E, 0x4B, 0x4C, 0x45, 0x42, 0x6F, 0x68, 0x61, 0x66, 0x73, 0x74, 0x7D, 0x7A)
  }

  function Row8(k: bv8): bv8 {
    Pick(k, 0x89, 0x8E, 0x87, 0x80, 0x95, 0x92, 0x9B, 0x9C, 0xB1, 0xB6, 0xBF, 0xB8, 0xAD, 0xAA, 0xA3, 0xA4)
  }

  function Row9(k: bv8): bv8 {
    Pick(k, 0xF9, 0xFE, 0xF7, 0xF0, 0xE5, 0xE2, 0xEB, 0xEC, 0xC1, 0xC6, 0xCF, 0xC8, 0xDD, 0xDA, 0xD3, 0xD4)
  }

  function RowA(k: bv8): bv8 {
    Pick(k, 0x69, 0x6E, 0x67, 0x60, 0x75, 0x72, 0x7B, 0x7C, 0x51, 0x56, 0x5F, 0x58, 0x4D, 0x4A, 0x43, 0x44)
  }

  function RowB(k: bv8): bv8 {
    Pick(k, 0x19, 0x1E, 0x17, 0x10, 0x05, 0x02, 0x0B, 0x0C, 0x21, 0x26, 0x2F, 0x28, 0x3D, 0x3A, 0x33, 0x34)
  }

  function RowC(k: bv8): bv8 {
    Pick(k, 0x4E, 0x49, 0x40, 0x47, 0x52, 0x55, 0x5C, 0x5B, 0x76, 0x71, 0x78, 0x7F, 0x6A, 0x6D, 0x64, 0x63)
  }

  function RowD(k: bv8): bv8 {
    Pick(k, 0x3E, 0x39, 0x30, 0x37, 0x22, 0x25, 0x2C, 0x2B, 0x06, 0x01, 0x08, 0x0F, 0x1A, 0x1D, 0x14, 0x13)
  }

  function RowE(k: bv8): bv8 {
    Pick(k, 0xAE, 0xA9, 0xA0, 0xA7, 0xB2, 0xB5, 0xBC, 0xBB, 0x96, 0x91, 0x98, 0x9F, 0x8A, 0x8D, 0x84, 0x83)
  }

  function RowF(k: bv8): bv8 {
    Pick(k, 0xDE, 0xD9, 0xD0, 0xD7, 0xC2, 0xC5, 0xCC, 0xCB, 0xE6, 0xE1, 0xE8, 0xEF, 0xFA, 0xFD, 0xF4, 0xF3)
  }

  /** The program's table, sixteen entries to a row. */
  function Table(i: bv8): bv8 {
    var r, k := i >> 4, i & 15;
    if r == 0 then Row0(k) else if r == 1 then Row1(k) else if r == 2 then Row2(k) else if r == 3 then Row3(k) else
    if r == 4 then Row4(k) else if r == 5 then Row5(k) else if r == 6 then Row6(k) else if r == 7 then Row7(k) else
    if r == 8 then Row8(k) else if r == 9 then Row9(k) else if r == 10 then RowA(k) else if r == 11 then RowB(k) else
    if r == 12 then RowC(k) else if r == 13 then RowD(k) else if r == 14 then RowE(k) else RowF(k)
  }

  /** The program's step for one byte. */
  function FastStep(c: bv8, b: bv8): bv8 {
    Table(b ^ c)
  }

  /** `CRC8::calculate`: the division from zero. */
  method Calculate(bytes: seq<bv8>) returns (crc: bv8)
    ensures crc == Divide(0, bytes)
  {
    crc := 0;
    var i := 0;
    while i < |bytes|
      invariant i <= |bytes| && Divide(0, bytes) == Divide(crc, bytes[i..])
    {
      FastIsDivision(crc, bytes[i]);
      assert bytes[i..][1..] == bytes[i + 1..];
      crc := FastStep(crc, bytes[i]);
      i := i + 1;
    }
  }

  // ---- eight steps at once ----

  function ZeroBit(c: bv8): bv8 {
    if Out(c) then Xor(Shift(c), POLYNOMIAL) else Shift(c)
  }

  function Eight(c: bv8): bv8 {
    ZeroBit(ZeroBit(ZeroBit(ZeroBit(ZeroBit(ZeroBit(ZeroBit(ZeroBit(c))))))))
  }

  lemma ShiftLinear(x: bv8, y: bv8)
    ensures Shift(Xor(x, y)) == Xor(Shift(x), Shift(y)) && Out(Xor(x, y)) == (Out(x) != Out(y))
  {
  }

  lemma XorMoves(x: bv8, y: bv8, z: bv8)
    ensures Xor(Xor(x, y), z) == Xor(Xor(x, z), y)
  {
  }

  lemma SameEnds(b: bv8)
    ensures Out(b) == First(b) && Shift(b) == Next(b)
  {
  }

  /** Adding a bit of the message before a step or in it is the same. */
  lemma OneBit(c: bv8, b: bv8)
    ensures ZeroBit(Xor(c, b)) == Xor(DivideBit(c, First(b)), Next(b))
  {
    hide Xor, Shift, Out, First, Next;
    ShiftLinear(c, b);
    SameEnds(b);
    XorMoves(Shift(c), Next(b), POLYNOMIAL);
  }

  function ZeroBits(c: bv8, n: nat): bv8
    decreases n
  {
    if n == 0 then c else ZeroBits(ZeroBit(c), n - 1)
  }

  function Rest(b: bv8, n: nat): bv8
    decreases n
  {
    if n == 0 then b else Rest(Next(b), n - 1)
  }

  lemma {:induction false} AddedBits(c: bv8, b: bv8, n: nat)
    ensures ZeroBits(Xor(c, b), n) == Xor(DivideBits(c, b, n), Rest(b, n))
    decreases n
  {
    hide ZeroBit, Xor, DivideBit, Next, First;
    if n > 0 {
      OneBit(c, b);
      AddedBits(DivideBit(c, First(b)), Next(b), n - 1);
    }
  }

  lemma EightSteps(c: bv8)
    ensures ZeroBits(c, 8) == Eight(c)
  {
    hide ZeroBit;
    var c2 := ZeroBit(ZeroBit(c));
    var c4 := ZeroBit(ZeroBit(c2));
    var c6 := ZeroBit(ZeroBit(c4));
    assert ZeroBits(c, 8) == ZeroBits(c2, 6) && ZeroBits(c2, 6) == ZeroBits(c4, 4);
    assert ZeroBits(c4, 4) == ZeroBits(c6, 2);
  }

  lemma EightNext(b: bv8)
    ensures Rest(b, 8) == 0
  {
    var b2 := Next(Next(b));
    var b4 := Next(Next(b2));
    var b6 := Next(Next(b4));
    assert Rest(b, 8) == Rest(b2, 6) && Rest(b2, 6) == Rest(b4, 4) && Rest(b4, 4) == Rest(b6, 2);
  }

  /** Dividing a byte is adding it and taking eight steps. */
  lemma ByteDivides(c: bv8, b: bv8)
    ensures DivideBits(c, b, 8) == Eight(Xor(c, b))
  {
    hide Eight, DivideBits, ZeroBits;
    AddedBits(c, b, 8);
    EightSteps(Xor(c, b));
    EightNext(b);
  }

  /** Nothing is lost in eight steps. */
  lemma EightInjective(x: bv8, y: bv8)
    requires Eight(x) == Eight(y)
    ensures x == y
  {
  }

  lemma ByteInjective(c: bv8, b: bv8, d: bv8, e: bv8)
    requires DivideBits(c, b, 8) == DivideBits(d, e, 8)
    ensures Xor(c, b) == Xor(d, e)
  {
    hide Eight, DivideBits;
    ByteDivides(c, b);
    ByteDivides(d, e);
    EightInjective(Xor(c, b), Xor(d, e));
  }

  // ---- the table holds the remainders of its indices ----

  lemma Check0(k: bv8)
    requires k < 16
    ensures Row0(k) == Eight(k)
  {
  }

  lemma Check1(k: bv8)
    requires k < 16
    ensures Row1(k) == Eight(k + 16)
  {
  }

  lemma Check2(k: bv8)
    requires k < 16
    ensures Row2(k) == Eight(k + 32)
  {
  }

  lemma Check3(k: bv8)
    requires k < 16
    ensures Row3(k) == Eight(k + 48)
  {
  }

  lemma Check4(k: bv8)
    requires k < 16
    ensures Row4(k) == Eight(k + 64)
  {
  }

  lemma Check5(k: bv8)
    requires k < 16
    ensures Row5(k) == Eight(k + 80)
  {
  }

  lemma Check6(k: bv8)
    requires k < 16
    ensures Row6(k) == Eight(k + 96)
  {
  }

  lemma Check7(k: bv8)
    requires k < 16
    ensures Row7(k) == Eight(k + 112)
  {
  }

  lemma Check8(k: bv8)
    requires k < 16
    ensures Row8(k) == Eight(k + 128)
  {
  }

  lemma Check9(k: bv8)
    requires k < 16
    ensures Row9(k) == Eight(k + 144)
  {
  }

  lemma CheckA(k: bv8)
    requires k < 16
    ensures RowA(k) == Eight(k + 160)
  {
  }

  lemma CheckB(k: bv8)
    requires k < 16
    ensures RowB(k) == Eight(k + 176)
  {
  }

  lemma CheckC(k: bv8)
    requires k < 16
    ensures RowC(k) == Eight(k + 192)
  {
  }

  lemma CheckD(k: bv8)
    requires k < 16
    ensures RowD(k) == Eight(k + 208)
  {
  }

  lemma CheckE(k: bv8)
    requires k < 16
    ensures RowE(k) == Eight(k + 224)
  {
  }

  lemma CheckF(k: bv8)
    requires k < 16
    ensures RowF(k) == Eight(k + 240)
  {
  }

  lemma TableIsEight(i: bv8)
    ensures Table(i) == Eight(i)
  {
    hide Eight, Pick;
    var r, k := i >> 4, i & 15;
    if r == 0 { Check0(k); } else if r == 1 { Check1(k); } else if r == 2 { Check2(k); } else if r == 3 { Check3(k); }
    else if r == 4 { Check4(k); } else if r == 5 { Check5(k); } else if r == 6 { Check6(k); } else if r == 7 { Check7(k); }
    else if r == 8 { Check8(k); } else if r == 9 { Check9(k); } else if r == 10 { CheckA(k); } else if r == 11 { CheckB(k); }
    else if r == 12 { CheckC(k); } else if r == 13 { CheckD(k); } else if r == 14 { CheckE(k); } else { CheckF(k); }
  }

  /** The program's step is eight steps of the division. */
  lemma FastIsDivision(c: bv8, b: bv8)
    ensures FastStep(c, b) == DivideBits(c, b, 8)
  {
    hide Eight, Table, DivideBits;
    var i := b ^ c;
    TableIsEight(i);
    ByteDivides(c, b);
  }

  // ---- whole messages ----

  /** Dividing two messages in turn is dividing their concatenation. */
  lemma {:induction false} DivideConcat(c: bv8, a: seq<bv8>, b: seq<bv8>)
    ensures Divide(c, a + b) == Divide(Divide(c, a), b)
    decreases |a|
  {
    hide DivideBits;
    if a == [] {
      assert a + b == b;
    } else {
      assert (a + b)[0] == a[0] && (a + b)[1..] == a[1..] + b;
      DivideConcat(DivideBits(c, a[0], 8), a[1..], b);
    }
  }

  /** Messages with a common end keep different states apart. */
  lemma {:induction false} DivideInjective(c: bv8, d: bv8, m: seq<bv8>)
    requires Divide(c, m) == Divide(d, m)
    ensures c == d
    decreases |m|
  {
    hide DivideBits;
    if m != [] {
      DivideInjective(DivideBits(c, m[0], 8), DivideBits(d, m[0], 8), m[1..]);
      ByteInjective(c, m[0], d, m[0]);
    }
  }

  /** Messages of one length that differ in a single byte never have the same
      checksum. */
  lemma ByteDetected(c: bv8, m: seq<bv8>, n: seq<bv8>, at: nat)
    requires |m| == |n| && m != n
    requires forall i :: 0 <= i < |m| && i != at ==> m[i] == n[i]
    ensures Divide(c, m) != Divide(c, n)
  {
    hide Divide, DivideBits;
    if at < |m| {
      assert m == m[..at] + ([m[at]] + m[at + 1..]) && n == n[..at] + ([n[at]] + n[at + 1..]);
      assert m[..at] == n[..at] && m[at + 1..] == n[at + 1..];
      var s := Divide(c, m[..at]);
      DivideConcat(c, m[..at], [m[at]] + m[at + 1..]);
      DivideConcat(c, n[..at], [n[at]] + n[at + 1..]);
      DivideConcat(s, [m[at]], m[at + 1..]);
      DivideConcat(s, [n[at]], n[at + 1..]);
      if Divide(c, m) == Divide(c, n) {
        DivideInjective(Divide(s, [m[at]]), Divide(s, [n[at]]), m[at + 1..]);
        OneByte(s, m[at]);
        OneByte(s, n[at]);
        ByteInjective(s, m[at], s, n[at]);
      }
    }
  }

  lemma OneByte(c: bv8, b: bv8)
    ensures Divide(c, [b]) == DivideBits(c, b, 8)
  {
    hide DivideBits;
    assert [b][1..] == [];
    assert Divide(DivideBits(c, b, 8), []) == DivideBits(c, b, 8);
  }
}
