/** Bit-at-a-time division of messages by a CRC-32 polynomial, in both bit orders, and
    what it detects. A step is linear over exclusive or and loses nothing, since the
    polynomial has a constant term. From linearity follows that a byte can be added to
    the register at once and eight steps be taken without a message, which is what a
    table stores; from injectivity that two different states never meet again on the
    same message. */
module CrcDivision {
  /** Which end of a byte is transmitted, and of the register shifted out, first. */
  datatype Form = HighFirst | LowFirst

  function Polynomial(f: Form): bv32 {
    if f.HighFirst? then 0x04C1_1DB7 else 0xEDB8_8320
  }

  // ---- words ----

  function Xor(x: bv32, y: bv32): bv32 {
    x ^ y
  }

  function Left(c: bv32): bv32 { c << 1 }

  function Right(c: bv32): bv32 { c >> 1 }

  function LeftByte(c: bv32): bv32 { c << 8 }

  function RightByte(c: bv32): bv32 { c >> 8 }

  function InTop(b: bv8): bv32 { (b as bv32) << 24 }

  function InLow(b: bv8): bv32 { b as bv32 }

  function TopByte(c: bv32): bv8 { (c >> 24) as bv8 }

  function LowByte(c: bv32): bv8 { (c & 0xFF) as bv8 }

  function SansTop(c: bv32): bv32 { c & 0x00FF_FFFF }

  function SansLow(c: bv32): bv32 { c & 0xFFFF_FF00 }

  predicate NoTop(c: bv32) { c & 0xFF00_0000 == 0 }

  predicate NoLow(c: bv32) { c & 0x0000_00FF == 0 }

  predicate OnlyTop(c: bv32) { c & 0x00FF_FFFF == 0 }

  predicate OnlyLow(c: bv32) { c & 0xFFFF_FF00 == 0 }

  predicate NoLowHalf(c: bv32) { c & 0x0000_FFFF == 0 }

  predicate NoHighHalf(c: bv32) { c & 0xFFFF_0000 == 0 }

  /** Shifts one bit out. */
  function Shift(f: Form, c: bv32): bv32 {
    if f.HighFirst? then Left(c) else Right(c)
  }

  /** The bit that a shift loses. */
  function Out(f: Form, c: bv32): bool {
    if f.HighFirst? then c & 0x8000_0000 != 0 else c & 1 != 0
  }

  // ---- bit-at-a-time division ----

  /** One step of the division, for one bit of the message. */
  function DivideBit(f: Form, c: bv32, bit: bool): bv32 {
    if Out(f, c) != bit then Xor(Shift(f, c), Polynomial(f)) else Shift(f, c)
  }

  /** The first bit of a byte in the order of transmission. */
  function First(f: Form, b: bv8): bool {
    if f.HighFirst? then b & 0x80 != 0 else b & 1 != 0
  }

  function Next(f: Form, b: bv8): bv8 {
    if f.HighFirst? then b << 1 else b >> 1
  }

  function DivideBits(f: Form, c: bv32, b: bv8, n: nat): bv32
    decreases n
  {
    if n == 0 then c else DivideBits(f, DivideBit(f, c, First(f, b)), Next(f, b), n - 1)
  }

  /** The remainder after a whole message, from a given start. */
  function Divide(f: Form, c: bv32, message: seq<bv8>): bv32
    decreases |message|
  {
    if message == [] then c else Divide(f, DivideBits(f, c, message[0], 8), message[1..])
  }

  /** The byte that the next eight shifts lose. */
  function Top(f: Form, c: bv32): bv8 {
    if f.HighFirst? then TopByte(c) else LowByte(c)
  }

  function ByteShift(f: Form, c: bv32): bv32 {
    if f.HighFirst? then LeftByte(c) else RightByte(c)
  }

  // ---- a step without message, and adding a byte ----

  function Subtracted(f: Form, c: bv32): bv32 {
    if Out(f, c) then Polynomial(f) else 0
  }

  function ZeroBit(f: Form, c: bv32): bv32 {
    Xor(Shift(f, c), Subtracted(f, c))
  }

  function ZeroBits(f: Form, c: bv32, n: nat): bv32
    decreases n
  {
    if n == 0 then c else ZeroBits(f, ZeroBit(f, c), n - 1)
  }

  /** A byte where the next eight steps shift out. */
  function Place(f: Form, b: bv8): bv32 {
    if f.HighFirst? then InTop(b) else InLow(b)
  }

  function Feed(f: Form, c: bv32, b: bv8): bv32 {
    Xor(c, Place(f, b))
  }

  // ---- the word arithmetic of either order ----

  lemma ShiftLinearWords(x: bv32, y: bv32)
    ensures Left(Xor(x, y)) == Xor(Left(x), Left(y))
    ensures Right(Xor(x, y)) == Xor(Right(x), Right(y))
  {
  }

  lemma ShiftEightWords(c: bv32)
    ensures Left(Left(Left(Left(Left(Left(Left(Left(c)))))))) == LeftByte(c)
    ensures Right(Right(Right(Right(Right(Right(Right(Right(c)))))))) == RightByte(c)
  {
  }

  lemma KeepsRestWords(c: bv32)
    ensures c == Xor(SansTop(c), InTop(TopByte(c)))
    ensures c == Xor(SansLow(c), InLow(LowByte(c)))
  {
  }

  lemma PlaceXorWords(a: bv8, b: bv8)
    ensures InTop(a ^ b) == Xor(InTop(a), InTop(b))
    ensures InLow(a ^ b) == Xor(InLow(a), InLow(b))
  {
  }

  lemma KeptShiftsWords(c: bv32)
    ensures NoTop(SansTop(c)) && LeftByte(SansTop(c)) == LeftByte(c)
    ensures NoLow(SansLow(c)) && RightByte(SansLow(c)) == RightByte(c)
  {
  }

  lemma HighRoomAfter(w: bv32, b: bv8)
    ensures w == 0 ==> OnlyTop(Xor(RightByte(w), InTop(b)))
    ensures OnlyTop(w) ==> NoLowHalf(Xor(RightByte(w), InTop(b)))
    ensures NoLowHalf(w) ==> NoLow(Xor(RightByte(w), InTop(b)))
  {
  }

  lemma LowRoomAfter(w: bv32, b: bv8)
    ensures w == 0 ==> OnlyLow(Xor(LeftByte(w), InLow(b)))
    ensures OnlyLow(w) ==> NoHighHalf(Xor(LeftByte(w), InLow(b)))
    ensures NoHighHalf(w) ==> NoTop(Xor(LeftByte(w), InLow(b)))
  {
  }

  lemma HighRoomAtEnd(w: bv32)
    ensures w == 0 || OnlyTop(w) || NoLowHalf(w) ==> NoLow(w)
  {
  }

  lemma LowRoomAtEnd(w: bv32)
    ensures w == 0 || OnlyLow(w) || NoHighHalf(w) ==> NoTop(w)
  {
  }

  lemma HighMovesBack(w: bv32)
    requires NoLow(w)
    ensures NoTop(RightByte(w)) && LeftByte(RightByte(w)) == w
  {
  }

  lemma LowMovesBack(w: bv32)
    requires NoTop(w)
    ensures NoLow(LeftByte(w)) && RightByte(LeftByte(w)) == w
  {
  }

  lemma HighFeedApart(v: bv32, w: bv32, a: bv8, b: bv8)
    requires Xor(RightByte(v), InTop(a)) == Xor(RightByte(w), InTop(b))
    ensures a == b && RightByte(v) == RightByte(w)
  {
  }

  lemma LowFeedApart(v: bv32, w: bv32, a: bv8, b: bv8)
    requires Xor(LeftByte(v), InLow(a)) == Xor(LeftByte(w), InLow(b))
    ensures a == b && LeftByte(v) == LeftByte(w)
  {
  }

  lemma XorAssociates(x: bv32, y: bv32, z: bv32)
    ensures Xor(Xor(x, y), z) == Xor(x, Xor(y, z))
  {
  }

  lemma XorCommutes(x: bv32, y: bv32)
    ensures Xor(x, y) == Xor(y, x)
  {
  }

  lemma XorNothing(c: bv32)
    ensures Xor(c, 0) == c && Xor(0, c) == c
  {
  }

  lemma XorZero(x: bv32, y: bv32)
    ensures Xor(x, y) == 0 <==> x == y
  {
  }

  lemma XorMoves(x: bv32, y: bv32, z: bv32)
    ensures Xor(Xor(x, y), z) == Xor(Xor(x, z), y)
  {
    hide Xor;
    XorAssociates(x, y, z);
    XorAssociates(x, z, y);
    XorCommutes(y, z);
  }

  lemma Shuffle(a: bv32, b: bv32, p: bv32, q: bv32)
    ensures Xor(Xor(a, b), Xor(p, q)) == Xor(Xor(a, p), Xor(b, q))
  {
    hide Xor;
    XorAssociates(Xor(a, b), p, q);
    XorMoves(a, b, p);
    XorAssociates(Xor(a, p), b, q);
  }

  lemma OutLinear(f: Form, x: bv32, y: bv32)
    ensures Out(f, Xor(x, y)) == (Out(f, x) != Out(f, y))
  {
  }

  lemma ShiftLinear(f: Form, x: bv32, y: bv32)
    ensures Shift(f, Xor(x, y)) == Xor(Shift(f, x), Shift(f, y))
  {
    hide Xor, Left, Right;
    ShiftLinearWords(x, y);
  }

  lemma SubtractedLinear(f: Form, x: bv32, y: bv32)
    ensures Subtracted(f, Xor(x, y)) == Xor(Subtracted(f, x), Subtracted(f, y))
  {
    hide Out, Xor;
    OutLinear(f, x, y);
    XorNothing(Polynomial(f));
    XorNothing(0);
    XorZero(Polynomial(f), Polynomial(f));
  }

  /** Steps are linear over exclusive or. */
  lemma BitLinear(f: Form, x: bv32, y: bv32)
    ensures ZeroBit(f, Xor(x, y)) == Xor(ZeroBit(f, x), ZeroBit(f, y))
  {
    hide Subtracted, Xor, Shift;
    SubtractedLinear(f, x, y);
    ShiftLinear(f, x, y);
    Shuffle(Shift(f, x), Shift(f, y), Subtracted(f, x), Subtracted(f, y));
  }

  lemma {:induction false} BitsLinear(f: Form, x: bv32, y: bv32, n: nat)
    ensures ZeroBits(f, Xor(x, y), n) == Xor(ZeroBits(f, x, n), ZeroBits(f, y, n))
    decreases n
  {
    hide Xor, ZeroBit;
    if n > 0 {
      BitLinear(f, x, y);
      BitsLinear(f, ZeroBit(f, x), ZeroBit(f, y), n - 1);
    }
  }

  lemma ZeroOnly(f: Form, c: bv32)
    requires ZeroBit(f, c) == 0
    ensures c == 0
  {
  }

  lemma BitInjective(f: Form, x: bv32, y: bv32)
    requires ZeroBit(f, x) == ZeroBit(f, y)
    ensures x == y
  {
    hide Xor, ZeroBit;
    BitLinear(f, x, y);
    XorZero(ZeroBit(f, x), ZeroBit(f, y));
    ZeroOnly(f, Xor(x, y));
    XorZero(x, y);
  }

  /** Nothing is lost in a step, since the polynomial has a constant term. */
  lemma {:induction false} BitsInjective(f: Form, x: bv32, y: bv32, n: nat)
    requires ZeroBits(f, x, n) == ZeroBits(f, y, n)
    ensures x == y
    decreases n
  {
    hide ZeroBit;
    if n > 0 {
      BitsInjective(f, ZeroBit(f, x), ZeroBit(f, y), n - 1);
      BitInjective(f, x, y);
    }
  }

  // ---- adding a byte at once is dividing its bits one by one ----

  lemma OneBit(f: Form, c: bv32, b: bv8)
    ensures ZeroBit(f, Feed(f, c, b)) == Feed(f, DivideBit(f, c, First(f, b)), Next(f, b))
  {
    hide Xor, Shift, Out, Place, First, Next;
    PlaceShifts(f, b);
    OutLinear(f, c, Place(f, b));
    ShiftLinear(f, c, Place(f, b));
    XorNothing(Shift(f, Feed(f, c, b)));
    XorMoves(Shift(f, c), Place(f, Next(f, b)), Polynomial(f));
  }

  lemma PlaceShifts(f: Form, b: bv8)
    ensures Out(f, Place(f, b)) == First(f, b) && Shift(f, Place(f, b)) == Place(f, Next(f, b))
  {
  }

  function Rest(f: Form, b: bv8, n: nat): bv8
    decreases n
  {
    if n == 0 then b else Rest(f, Next(f, b), n - 1)
  }

  lemma {:induction false} FeedBits(f: Form, c: bv32, b: bv8, n: nat)
    ensures ZeroBits(f, Feed(f, c, b), n) == Feed(f, DivideBits(f, c, b, n), Rest(f, b, n))
    decreases n
  {
    hide ZeroBit, Feed, DivideBit, Next, First;
    if n > 0 {
      OneBit(f, c, b);
      FeedBits(f, DivideBit(f, c, First(f, b)), Next(f, b), n - 1);
    }
  }

  lemma EightNext(f: Form, b: bv8)
    ensures Rest(f, b, 8) == 0
  {
    var b2 := Next(f, Next(f, b));
    var b4 := Next(f, Next(f, b2));
    var b6 := Next(f, Next(f, b4));
    assert Rest(f, b, 8) == Rest(f, b2, 6) && Rest(f, b2, 6) == Rest(f, b4, 4) && Rest(f, b4, 4) == Rest(f, b6, 2);
  }

  lemma FeedNothing(f: Form, c: bv32)
    ensures Feed(f, c, 0) == c
  {
    XorNothing(c);
  }

  lemma ByteDivides(f: Form, c: bv32, b: bv8)
    ensures ZeroBits(f, Feed(f, c, b), 8) == DivideBits(f, c, b, 8)
  {
    hide Feed, ZeroBit, DivideBit, Next, First;
    FeedBits(f, c, b, 8);
    EightNext(f, b);
    FeedNothing(f, DivideBits(f, c, b, 8));
  }

  // ---- eight steps at once ----

  function Eight(f: Form, c: bv32): bv32 {
    ZeroBit(f, ZeroBit(f, ZeroBit(f, ZeroBit(f, ZeroBit(f, ZeroBit(f, ZeroBit(f, ZeroBit(f, c))))))))
  }

  lemma EightSteps(f: Form, c: bv32)
    ensures ZeroBits(f, c, 8) == Eight(f, c)
  {
    hide ZeroBit;
    var c2 := ZeroBit(f, ZeroBit(f, c));
    var c4 := ZeroBit(f, ZeroBit(f, c2));
    var c6 := ZeroBit(f, ZeroBit(f, c4));
    assert ZeroBits(f, c, 8) == ZeroBits(f, c2, 6) && ZeroBits(f, c2, 6) == ZeroBits(f, c4, 4);
    assert ZeroBits(f, c4, 4) == ZeroBits(f, c6, 2);
  }

  // ---- the fast step is eight steps of the division ----

  lemma NothingOut(f: Form, c: bv32)
    requires !Out(f, c)
    ensures ZeroBit(f, c) == Shift(f, c)
  {
    XorNothing(Shift(f, c));
  }

  lemma Clear(f: Form, c: bv32)
    requires Clean(f, c)
    ensures !Out(f, c)
    ensures !Out(f, Shift(f, c))
    ensures !Out(f, Shift(f, Shift(f, c)))
    ensures !Out(f, Shift(f, Shift(f, Shift(f, c))))
    ensures !Out(f, Shift(f, Shift(f, Shift(f, Shift(f, c)))))
    ensures !Out(f, Shift(f, Shift(f, Shift(f, Shift(f, Shift(f, c))))))
    ensures !Out(f, Shift(f, Shift(f, Shift(f, Shift(f, Shift(f, Shift(f, c)))))))
    ensures !Out(f, Shift(f, Shift(f, Shift(f, Shift(f, Shift(f, Shift(f, Shift(f, c))))))))
  {
  }

  lemma ShiftEight(f: Form, c: bv32)
    ensures Shift(f, Shift(f, Shift(f, Shift(f, Shift(f, Shift(f, Shift(f, Shift(f, c)))))))) == ByteShift(f, c)
  {
    hide Left, Right, LeftByte, RightByte;
    ShiftEightWords(c);
  }

  /** With nothing to shift out, eight steps move a whole byte. */
  lemma EightShifts(f: Form, c: bv32)
    requires Clean(f, c)
    ensures Eight(f, c) == ByteShift(f, c)
  {
    hide ZeroBit, Shift, Out, ByteShift;
    Clear(f, c);
    NothingOut(f, c);
    NothingOut(f, Shift(f, c));
    NothingOut(f, Shift(f, Shift(f, c)));
    NothingOut(f, Shift(f, Shift(f, Shift(f, c))));
    NothingOut(f, Shift(f, Shift(f, Shift(f, Shift(f, c)))));
    NothingOut(f, Shift(f, Shift(f, Shift(f, Shift(f, Shift(f, c))))));
    NothingOut(f, Shift(f, Shift(f, Shift(f, Shift(f, Shift(f, Shift(f, c)))))));
    NothingOut(f, Shift(f, Shift(f, Shift(f, Shift(f, Shift(f, Shift(f, Shift(f, c))))))));
    ShiftEight(f, c);
  }

  function Index(f: Form, c: bv32, b: bv8): bv8 {
    Top(f, c) ^ b
  }

  /** Nothing in the byte that is shifted out next. */
  predicate Clean(f: Form, c: bv32) {
    if f.HighFirst? then NoTop(c) else NoLow(c)
  }

  function Kept(f: Form, c: bv32): bv32 {
    if f.HighFirst? then SansTop(c) else SansLow(c)
  }

  lemma KeepsRest(f: Form, c: bv32)
    ensures c == Xor(Kept(f, c), Place(f, Top(f, c)))
  {
    hide Xor, SansTop, SansLow, InTop, InLow, TopByte, LowByte;
    KeepsRestWords(c);
  }

  lemma PlaceXor(f: Form, a: bv8, b: bv8)
    ensures Place(f, a ^ b) == Xor(Place(f, a), Place(f, b))
  {
    hide Xor, InTop, InLow;
    PlaceXorWords(a, b);
  }

  lemma FeedSplits(f: Form, c: bv32, b: bv8)
    ensures Feed(f, c, b) == Xor(Kept(f, c), Place(f, Index(f, c, b)))
  {
    hide Xor, Kept, Place, Top;
    KeepsRest(f, c);
    PlaceXor(f, Top(f, c), b);
    XorAssociates(Kept(f, c), Place(f, Top(f, c)), Place(f, b));
  }

  lemma KeptShifts(f: Form, c: bv32)
    ensures Clean(f, Kept(f, c)) && ByteShift(f, Kept(f, c)) == ByteShift(f, c)
  {
    hide SansTop, SansLow, NoTop, NoLow, LeftByte, RightByte;
    KeptShiftsWords(c);
  }

  lemma FeedFromZero(f: Form, i: bv8)
    ensures Feed(f, 0, i) == Place(f, i)
  {
    XorNothing(Place(f, i));
  }

  // ---- whole messages ----

  /** Dividing two messages in turn is dividing their concatenation. */
  lemma {:induction false} DivideConcat(f: Form, c: bv32, a: seq<bv8>, b: seq<bv8>)
    ensures Divide(f, c, a + b) == Divide(f, Divide(f, c, a), b)
    decreases |a|
  {
    hide DivideBits;
    if a == [] {
      assert a + b == b;
    } else {
      assert (a + b)[0] == a[0] && (a + b)[1..] == a[1..] + b;
      DivideConcat(f, DivideBits(f, c, a[0], 8), a[1..], b);
    }
  }

  lemma FeedSame(f: Form, c: bv32, d: bv32, b: bv8)
    requires Feed(f, c, b) == Feed(f, d, b)
    ensures c == d
  {
  }

  /** Messages with a common end keep different states apart. */
  lemma {:induction false} DivideInjective(f: Form, c: bv32, d: bv32, m: seq<bv8>)
    requires Divide(f, c, m) == Divide(f, d, m)
    ensures c == d
    decreases |m|
  {
    hide DivideBits, ZeroBits, Feed;
    if m != [] {
      DivideInjective(f, DivideBits(f, c, m[0], 8), DivideBits(f, d, m[0], 8), m[1..]);
      ByteDivides(f, c, m[0]);
      ByteDivides(f, d, m[0]);
      BitsInjective(f, Feed(f, c, m[0]), Feed(f, d, m[0]), 8);
      FeedSame(f, c, d, m[0]);
    }
  }

  // ---- bursts ----

  /** At most four bytes as one word, the first to be shifted out in front. */
  function Word(f: Form, x: seq<bv8>): bv32 {
    if x == [] then 0 else Feed(f, Behind(f, Word(f, x[1..])), x[0])
  }

  function Behind(f: Form, w: bv32): bv32 {
    if f.HighFirst? then RightByte(w) else LeftByte(w)
  }

  /** Room for a word to move back a byte. */
  predicate Room(f: Form, w: bv32, bytes: nat) {
    if bytes == 0 then w == 0
    else if bytes == 1 then (if f.HighFirst? then OnlyTop(w) else OnlyLow(w))
    else if bytes == 2 then (if f.HighFirst? then NoLowHalf(w) else NoHighHalf(w))
    else Spare(f, w)
  }

  predicate Spare(f: Form, w: bv32) {
    if f.HighFirst? then NoLow(w) else NoTop(w)
  }

  lemma RoomAfter(f: Form, w: bv32, b: bv8, bytes: nat)
    requires bytes < 3 && Room(f, w, bytes)
    ensures Room(f, Feed(f, Behind(f, w), b), bytes + 1)
  {
    hide Xor, OnlyTop, OnlyLow, RightByte, LeftByte, InTop, InLow, NoLowHalf, NoHighHalf, NoLow, NoTop;
    if f.HighFirst? { HighRoomAfter(w, b); } else { LowRoomAfter(w, b); }
  }

  lemma {:induction false} WordRoom(f: Form, x: seq<bv8>)
    requires |x| <= 3
    ensures Room(f, Word(f, x), |x|)
    decreases |x|
  {
    if x != [] {
      WordRoom(f, x[1..]);
      RoomAfter(f, Word(f, x[1..]), x[0], |x| - 1);
    }
  }

  lemma RoomAtEnd(f: Form, w: bv32, bytes: nat)
    requires bytes <= 3 && Room(f, w, bytes)
    ensures Spare(f, w)
  {
    hide OnlyTop, OnlyLow, NoLowHalf, NoHighHalf, NoLow, NoTop;
    if f.HighFirst? { HighRoomAtEnd(w); } else { LowRoomAtEnd(w); }
  }

  lemma MovesBack(f: Form, w: bv32)
    requires Spare(f, w)
    ensures Clean(f, Behind(f, w)) && ByteShift(f, Behind(f, w)) == w
  {
    hide NoLow, NoTop, RightByte, LeftByte;
    if f.HighFirst? { HighMovesBack(w); } else { LowMovesBack(w); }
  }

  lemma RoomToMove(f: Form, w: bv32, bytes: nat)
    requires bytes <= 3 && Room(f, w, bytes)
    ensures Clean(f, Behind(f, w)) && ByteShift(f, Behind(f, w)) == w
  {
    hide Behind, ByteShift, Room, Spare, Clean;
    RoomAtEnd(f, w, bytes);
    MovesBack(f, w);
  }

  lemma FeedMoves(f: Form, c: bv32, w: bv32, b: bv8)
    ensures Xor(c, Feed(f, w, b)) == Xor(Feed(f, c, b), w)
  {
    hide Xor, Place;
    XorAssociates(c, w, Place(f, b));
    XorMoves(c, w, Place(f, b));
  }

  /** Dividing up to four bytes is feeding them as one word and dividing zeros. */
  lemma {:induction false} WordDivides(f: Form, c: bv32, x: seq<bv8>)
    requires |x| <= 4
    ensures Divide(f, c, x) == ZeroBits(f, Xor(c, Word(f, x)), 8 * |x|)
    decreases |x|
  {
    hide Xor, Feed, Behind, ByteShift, DivideBits, ZeroBit, Eight, Room;
    if x == [] {
      XorNothing(c);
    } else {
      var w, d := Word(f, x[1..]), DivideBits(f, c, x[0], 8);
      WordDivides(f, d, x[1..]);
      FeedMoves(f, c, Behind(f, w), x[0]);
      BitsLinear(f, Feed(f, c, x[0]), Behind(f, w), 8);
      ByteDivides(f, c, x[0]);
      WordRoom(f, x[1..]);
      RoomToMove(f, w, |x| - 1);
      EightSteps(f, Behind(f, w));
      EightShifts(f, Behind(f, w));
      BitsInTurn(f, Xor(c, Word(f, x)), 8, 8 * |x| - 8);
    }
  }

  lemma {:induction false} BitsInTurn(f: Form, c: bv32, m: nat, n: nat)
    ensures ZeroBits(f, c, m + n) == ZeroBits(f, ZeroBits(f, c, m), n)
    decreases m
  {
    hide ZeroBit;
    if m > 0 { BitsInTurn(f, ZeroBit(f, c), m - 1, n); }
  }

  lemma FeedApart(f: Form, v: bv32, w: bv32, a: bv8, b: bv8)
    requires Feed(f, Behind(f, v), a) == Feed(f, Behind(f, w), b)
    ensures a == b && Behind(f, v) == Behind(f, w)
  {
    hide Xor, RightByte, LeftByte, InTop, InLow;
    if f.HighFirst? { HighFeedApart(v, w, a, b); } else { LowFeedApart(v, w, a, b); }
  }

  lemma {:induction false} WordInjective(f: Form, x: seq<bv8>, y: seq<bv8>)
    requires |x| == |y| <= 4 && Word(f, x) == Word(f, y)
    ensures x == y
    decreases |x|
  {
    hide Feed, Behind, ByteShift, Room;
    if x != [] {
      FeedApart(f, Word(f, x[1..]), Word(f, y[1..]), x[0], y[0]);
      WordRoom(f, x[1..]);
      WordRoom(f, y[1..]);
      RoomToMove(f, Word(f, x[1..]), |x| - 1);
      RoomToMove(f, Word(f, y[1..]), |y| - 1);
      WordInjective(f, x[1..], y[1..]);
      assert x == [x[0]] + x[1..] && y == [y[0]] + y[1..];
    }
  }

  lemma XorSame(c: bv32, v: bv32, w: bv32)
    requires Xor(c, v) == Xor(c, w)
    ensures v == w
  {
  }

  /** Two different blocks of at most four bytes lead to different states. */
  lemma BlockDetected(f: Form, c: bv32, x: seq<bv8>, y: seq<bv8>)
    requires |x| == |y| <= 4 && Divide(f, c, x) == Divide(f, c, y)
    ensures x == y
  {
    hide Xor, Word, ZeroBits, Divide;
    WordDivides(f, c, x);
    WordDivides(f, c, y);
    BitsInjective(f, Xor(c, Word(f, x)), Xor(c, Word(f, y)), 8 * |x|);
    XorSame(c, Word(f, x), Word(f, y));
    WordInjective(f, x, y);
  }

  /** Messages of one length that differ only inside some four consecutive bytes never
      have the same checksum. */
  lemma BurstDetected(f: Form, c: bv32, m: seq<bv8>, n: seq<bv8>, at: nat)
    requires |m| == |n| && m != n
    requires forall i :: 0 <= i < |m| && !(at <= i < at + 4) ==> m[i] == n[i]
    ensures Divide(f, c, m) != Divide(f, c, n)
  {
    hide Divide;
    if at < |m| {
      var end := if at + 4 < |m| then at + 4 else |m|;
      var x, y := m[at..end], n[at..end];
      assert m == m[..at] + (x + m[end..]) && n == n[..at] + (y + n[end..]);
      assert m[..at] == n[..at] && m[end..] == n[end..];
      var s := Divide(f, c, m[..at]);
      DivideConcat(f, c, m[..at], x + m[end..]);
      DivideConcat(f, c, n[..at], y + n[end..]);
      DivideConcat(f, s, x, m[end..]);
      DivideConcat(f, s, y, n[end..]);
      if Divide(f, c, m) == Divide(f, c, n) {
        DivideInjective(f, Divide(f, s, x), Divide(f, s, y), m[end..]);
        BlockDetected(f, s, x, y);
      }
    }
  }

  // ---- the fast step ----

  /** The step of a table-driven form: what is left after a byte has gone, and the
      table's entry for that byte. */
  function FastStep(f: Form, c: bv32, entry: bv32): bv32 {
    Xor(ByteShift(f, c), entry)
  }

  /** With the remainder of its index for an entry, it is eight steps of the division. */
  lemma FastIsDivision(f: Form, c: bv32, b: bv8, entry: bv32)
    requires entry == DivideBits(f, 0, Index(f, c, b), 8)
    ensures FastStep(f, c, entry) == DivideBits(f, c, b, 8)
  {
    hide Feed, Eight, DivideBits, ZeroBits, Xor, ByteShift, Kept, Place, Top, Clean;
    var i := Index(f, c, b);
    ByteDivides(f, c, b);
    FeedSplits(f, c, b);
    BitsLinear(f, Kept(f, c), Place(f, i), 8);
    KeptShifts(f, c);
    EightSteps(f, Kept(f, c));
    EightShifts(f, Kept(f, c));
    ByteDivides(f, 0, i);
    FeedFromZero(f, i);
  }

  /** What eight steps make of a byte in its place is its remainder. */
  lemma RemainderIs(f: Form, i: bv8)
    ensures DivideBits(f, 0, i, 8) == Eight(f, Place(f, i))
  {
    hide Eight, DivideBits, ZeroBits, Feed, Place;
    EightSteps(f, Place(f, i));
    FeedFromZero(f, i);
    ByteDivides(f, 0, i);
  }

  // ---- rows of a table ----

  function Pick(k: bv8, e0: bv32, e1: bv32, e2: bv32, e3: bv32, e4: bv32, e5: bv32, e6: bv32, e7: bv32,
                e8: bv32, e9: bv32, eA: bv32, eB: bv32, eC: bv32, eD: bv32, eE: bv32, eF: bv32): bv32 {
    if k == 0 then e0 else if k == 1 then e1 else if k == 2 then e2 else if k == 3 then e3 else
    if k == 4 then e4 else if k == 5 then e5 else if k == 6 then e6 else if k == 7 then e7 else
    if k == 8 then e8 else if k == 9 then e9 else if k == 10 then eA else if k == 11 then eB else
    if k == 12 then eC else if k == 13 then eD else if k == 14 then eE else eF
  }

  // ---- complements ----

  function Complement(c: bv32): bv32 {
    c ^ 0xFFFF_FFFF
  }

  lemma Complemented(x: bv32, y: bv32)
    requires Complement(x) == Complement(y)
    ensures x == y
  {
  }

  lemma ComplementedTwice(x: bv32)
    ensures Complement(Complement(x)) == x
  {
  }
}
