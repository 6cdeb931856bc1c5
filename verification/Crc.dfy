/** The CRC-16 of data object 63 (internal/brcode/brcode.go). */
module Crc {
  import opened Bytes
  import opened Gf2

  /** The top bit of a register, its left shift, and the sum of two registers. */
  predicate Top(x: bv16) {
    x & 0x8000 != 0
  }

  function Left(x: bv16): bv16 {
    x << 1
  }

  function Plus(x: bv16, y: bv16): bv16 {
    x ^ y
  }

  function Aligned(b: byte): bv16 {
    (b as bv16) << 8
  }

  const POLYNOMIAL: bv16 := 0x1021

  /** One turn of the inner loop. */
  function Shift(crc: bv16): bv16 {
    if Top(crc) then Plus(Left(crc), POLYNOMIAL) else Left(crc)
  }

  function Shifts(crc: bv16, n: nat): bv16
    decreases n
  {
    if n == 0 then crc else Shifts(Shift(crc), n - 1)
  }

  /** The register after one more byte. */
  function Feed(crc: bv16, b: byte): bv16 {
    Shifts(Plus(crc, Aligned(b)), 8)
  }

  /** The register after the bytes of `s`, oldest first. */
  function FeedAll(crc: bv16, s: seq<byte>): bv16
    decreases |s|
  {
    if s == [] then crc else FeedAll(Feed(crc, s[0]), s[1..])
  }

  function Crc16(s: seq<byte>): bv16 {
    FeedAll(0xFFFF, s)
  }

  // ---- the polynomial reading of bytes and registers

  /** The `n` highest bits of `x`, highest first. */
  function TopBits(x: bv16, n: nat): (r: Bits)
    ensures |r| == n
    decreases n
  {
    if n == 0 then [] else [Top(x)] + TopBits(Left(x), n - 1)
  }

  function Bits16(x: bv16): (r: Bits)
    ensures |r| == 16
  {
    TopBits(x, 16)
  }

  function Bits8(b: byte): (r: Bits)
    ensures |r| == 8
  {
    TopBits(Aligned(b), 8)
  }

  function MessageBits(s: seq<byte>): (r: Bits)
    ensures |r| == 8 * |s|
  {
    if s == [] then [] else Bits8(s[0]) + MessageBits(s[1..])
  }

  /** The register after one message bit. */
  function FeedBit(crc: bv16, bit: bool): bv16 {
    if Top(crc) != bit then Plus(Left(crc), POLYNOMIAL) else Left(crc)
  }

  function FeedBits(crc: bv16, m: Bits): bv16
    decreases |m|
  {
    if m == [] then crc else FeedBits(FeedBit(crc, m[0]), m[1..])
  }

  lemma PlusTop(x: bv16, y: bv16)
    ensures Top(Plus(x, y)) == (Top(x) != Top(y))
  {
  }

  lemma PlusLeft(x: bv16, y: bv16)
    ensures Left(Plus(x, y)) == Plus(Left(x), Left(y))
  {
  }

  lemma PlusShift(x: bv16, y: bv16)
    ensures Top(Plus(x, y)) == (Top(x) != Top(y))
    ensures Left(Plus(x, y)) == Plus(Left(x), Left(y))
  {
    PlusTop(x, y);
    PlusLeft(x, y);
    hide Top, Left, Plus;
  }

  lemma XorCons(a: bool, x: Bits, b: bool, y: Bits)
    requires |x| == |y|
    ensures Xor([a] + x, [b] + y) == [a != b] + Xor(x, y)
  {
  }

  lemma {:induction false} TopBitsPlus(x: bv16, y: bv16, n: nat)
    ensures TopBits(Plus(x, y), n) == Xor(TopBits(x, n), TopBits(y, n))
    decreases n
  {
    hide Top, Left, Plus;
    if n > 0 {
      PlusShift(x, y);
      TopBitsPlus(Left(x), Left(y), n - 1);
      XorCons(Top(x), TopBits(Left(x), n - 1), Top(y), TopBits(Left(y), n - 1));
    }
  }

  lemma {:induction false} TopBitsZero(n: nat)
    ensures TopBits(0, n) == Zeros(n)
  {
    if n > 0 {
      TopBitsZero(n - 1);
    }
  }

  lemma OnesBits(n: nat)
    requires n >= 16
    ensures TopBits(0xFFFF, n) == seq(16, _ => true) + Zeros(n - 16)
  {
    OnesShifts();
    hide Top, Left, TopBits;
    var eight: Bits := [true, true, true, true, true, true, true, true];
    EightBits([0xFFFF, 0xFFFE, 0xFFFC, 0xFFF8, 0xFFF0, 0xFFE0, 0xFFC0, 0xFF80, 0xFF00], eight, n);
    EightBits([0xFF00, 0xFE00, 0xFC00, 0xF800, 0xF000, 0xE000, 0xC000, 0x8000, 0x0000], eight, n - 8);
    TopBitsZero(n - 16);
    assert eight + (eight + Zeros(n - 16)) == seq(16, _ => true) + Zeros(n - 16);
  }

  lemma OnesShifts()
    ensures Top(0xFFFF) && Left(0xFFFF) == 0xFFFE && Top(0xFFFE) && Left(0xFFFE) == 0xFFFC
    ensures Top(0xFFFC) && Left(0xFFFC) == 0xFFF8 && Top(0xFFF8) && Left(0xFFF8) == 0xFFF0
    ensures Top(0xFFF0) && Left(0xFFF0) == 0xFFE0 && Top(0xFFE0) && Left(0xFFE0) == 0xFFC0
    ensures Top(0xFFC0) && Left(0xFFC0) == 0xFF80 && Top(0xFF80) && Left(0xFF80) == 0xFF00
    ensures Top(0xFF00) && Left(0xFF00) == 0xFE00 && Top(0xFE00) && Left(0xFE00) == 0xFC00
    ensures Top(0xFC00) && Left(0xFC00) == 0xF800 && Top(0xF800) && Left(0xF800) == 0xF000
    ensures Top(0xF000) && Left(0xF000) == 0xE000 && Top(0xE000) && Left(0xE000) == 0xC000
    ensures Top(0xC000) && Left(0xC000) == 0x8000 && Top(0x8000) && Left(0x8000) == 0x0000
  {
  }

  const HIGH_BITS: Bits := [false, false, false, true, false, false, false, false]
  const LOW_BITS: Bits := [false, false, true, false, false, false, false, true]

  lemma HighShifts()
    ensures !Top(0x1021) && Left(0x1021) == 0x2042 && !Top(0x2042) && Left(0x2042) == 0x4084
    ensures !Top(0x4084) && Left(0x4084) == 0x8108 && Top(0x8108) && Left(0x8108) == 0x0210
    ensures !Top(0x0210) && Left(0x0210) == 0x0420 && !Top(0x0420) && Left(0x0420) == 0x0840
    ensures !Top(0x0840) && Left(0x0840) == 0x1080 && !Top(0x1080) && Left(0x1080) == 0x2100
  {
  }

  lemma LowShifts()
    ensures !Top(0x2100) && Left(0x2100) == 0x4200 && !Top(0x4200) && Left(0x4200) == 0x8400
    ensures Top(0x8400) && Left(0x8400) == 0x0800 && !Top(0x0800) && Left(0x0800) == 0x1000
    ensures !Top(0x1000) && Left(0x1000) == 0x2000 && !Top(0x2000) && Left(0x2000) == 0x4000
    ensures !Top(0x4000) && Left(0x4000) == 0x8000 && Top(0x8000) && Left(0x8000) == 0x0000
  {
  }

  /** Eight bits that come off one by one. */
  lemma EightBits(x: seq<bv16>, bits: Bits, n: nat)
    requires n >= 8 && |x| == 9 && |bits| == 8
    requires forall i :: 0 <= i < 8 ==> Top(x[i]) == bits[i] && Left(x[i]) == x[i + 1]
    ensures TopBits(x[0], n) == bits + TopBits(x[8], n - 8)
  {
    hide Top, Left, TopBits;
    BitsOff(x, bits, n, 8);
    assert bits[..8] == bits;
  }

  lemma {:induction false} BitsOff(x: seq<bv16>, bits: Bits, n: nat, k: nat)
    requires k <= 8 <= n && |x| == 9 && |bits| == 8
    requires forall i :: 0 <= i < 8 ==> Top(x[i]) == bits[i] && Left(x[i]) == x[i + 1]
    ensures TopBits(x[0], n) == bits[..k] + TopBits(x[k], n - k)
    decreases k
  {
    hide Top, Left, TopBits;
    if k > 0 {
      BitsOff(x, bits, n, k - 1);
      TopStep(x[k - 1], n - k + 1);
      OneMoreBit(bits, k, TopBits(x[k], n - k));
    } else {
      assert bits[..0] + TopBits(x[0], n) == TopBits(x[0], n);
    }
  }

  lemma OneMoreBit(bits: Bits, k: nat, rest: Bits)
    requires 0 < k <= |bits|
    ensures bits[..k - 1] + ([bits[k - 1]] + rest) == bits[..k] + rest
  {
  }

  lemma TopStep(x: bv16, n: nat)
    requires n > 0
    ensures TopBits(x, n) == [Top(x)] + TopBits(Left(x), n - 1)
  {
    hide Top, Left;
  }

  lemma PolynomialHigh(n: nat)
    requires n >= 8
    ensures TopBits(0x1021, n) == HIGH_BITS + TopBits(0x2100, n - 8)
  {
    HighShifts();
    hide Top, Left, TopBits;
    EightBits([0x1021, 0x2042, 0x4084, 0x8108, 0x0210, 0x0420, 0x0840, 0x1080, 0x2100], HIGH_BITS, n);
  }

  lemma PolynomialLow(n: nat)
    requires n >= 8
    ensures TopBits(0x2100, n) == LOW_BITS + TopBits(0x0000, n - 8)
  {
    LowShifts();
    hide Top, Left, TopBits;
    EightBits([0x2100, 0x4200, 0x8400, 0x0800, 0x1000, 0x2000, 0x4000, 0x8000, 0x0000], LOW_BITS, n);
  }

  lemma PolynomialBits(n: nat)
    requires n >= 16
    ensures TopBits(0x1021, n) == seq(n, i requires 0 <= i < n => Generator(i + 1))
  {
    PolynomialHigh(n);
    PolynomialLow(n - 8);
    TopBitsZero(n - 16);
    hide Top, Left, TopBits;
    assert TopBits(0x1021, n) == HIGH_BITS + (LOW_BITS + Zeros(n - 16));
  }

  /** The polynomial still to be divided: the register aligned with the highest
      powers, plus the message `m` times x^16. */
  function Dividend(crc: bv16, m: Bits): (r: Bits)
    ensures |r| == |m| + 16
  {
    Xor(TopBits(crc, |m| + 16), m + Zeros(16))
  }

  lemma ShiftBits(crc: bv16, n: nat)
    requires n > 0
    ensures TopBits(crc, n)[0] == Top(crc)
    ensures TopBits(crc, n)[1..] == TopBits(Left(crc), n - 1)
  {
    hide Top, Left;
  }

  lemma FeedBitBits(crc: bv16, bit: bool, n: nat)
    requires n > 16
    ensures TopBits(FeedBit(crc, bit), n - 1) ==
      seq(n - 1, i requires 0 <= i < n - 1 =>
        TopBits(crc, n)[i + 1] != ((Top(crc) != bit) && Generator(i + 1)))
  {
    hide Top, Left, Plus;
    ShiftBits(crc, n);
    if Top(crc) != bit {
      TopBitsPlus(Left(crc), POLYNOMIAL, n - 1);
      PolynomialBits(n - 1);
    }
  }

  lemma {:induction false} FeedBitReduces(crc: bv16, m: Bits)
    requires |m| > 0
    ensures Reduce(Dividend(crc, m)) == Dividend(FeedBit(crc, m[0]), m[1..])
  {
    FeedBitBits(crc, m[0], |m| + 16);
    ShiftBits(crc, |m| + 16);
    XorReduce(TopBits(crc, |m| + 16), m, TopBits(FeedBit(crc, m[0]), |m| + 15));
  }

  lemma XorReduce(t: Bits, m: Bits, u: Bits)
    requires |m| > 0 && |t| == |m| + 16 && |u| == |m| + 15
    requires u == seq(|u|, i requires 0 <= i < |u| => t[i + 1] != ((t[0] != m[0]) && Generator(i + 1)))
    ensures Reduce(Xor(t, m + Zeros(16))) == Xor(u, m[1..] + Zeros(16))
  {
    var d, e := Xor(t, m + Zeros(16)), Xor(u, m[1..] + Zeros(16));
    forall i | 0 <= i < |u| ensures Reduce(d)[i] == e[i] {
      assert (m + Zeros(16))[i + 1] == (m[1..] + Zeros(16))[i];
    }
  }

  lemma {:induction false} FeedBitsDivides(crc: bv16, m: Bits)
    ensures Bits16(FeedBits(crc, m)) == LongDivision(Dividend(crc, m))
    decreases |m|
  {
    if m == [] {
      XorZeros(Bits16(crc));
      assert m + Zeros(16) == Zeros(16);
    } else {
      FeedBitReduces(crc, m);
      FeedBitsDivides(FeedBit(crc, m[0]), m[1..]);
    }
  }

  lemma XorZeros(b: Bits)
    ensures Xor(b, Zeros(|b|)) == b
  {
  }

  // ---- bytes are eight message bits

  function LeftBy(w: bv16, n: nat): bv16
    decreases n
  {
    if n == 0 then w else LeftBy(Left(w), n - 1)
  }

  lemma PlusSwap(x: bv16, y: bv16, z: bv16)
    ensures Plus(Plus(x, y), z) == Plus(Plus(x, z), y)
  {
  }

  lemma PlusSelf(x: bv16)
    ensures Plus(x, 0) == x
    ensures Plus(x, x) == 0
  {
  }

  lemma PlusTwice(x: bv16, y: bv16)
    ensures Plus(Plus(x, y), y) == x
  {
  }

  lemma ShiftIsFeedBit(crc: bv16, w: bv16)
    ensures Shift(Plus(crc, w)) == Plus(FeedBit(crc, Top(w)), Left(w))
  {
    hide Top, Left, Plus;
    PlusShift(crc, w);
    PlusSwap(Left(crc), Left(w), POLYNOMIAL);
  }

  lemma {:induction false} ShiftsFeedBits(crc: bv16, w: bv16, n: nat)
    ensures Shifts(Plus(crc, w), n) == Plus(FeedBits(crc, TopBits(w, n)), LeftBy(w, n))
    decreases n
  {
    hide Top, Left, Plus;
    if n > 0 {
      ShiftIsFeedBit(crc, w);
      ShiftBits(w, n);
      ShiftsFeedBits(FeedBit(crc, Top(w)), Left(w), n - 1);
    }
  }

  lemma ByteShiftedOut(b: byte)
    ensures LeftBy(Aligned(b), 8) == 0
  {
    var w := Aligned(b);
    assert LeftBy(w, 8) == LeftBy(Left(Left(Left(w))), 5);
    assert LeftBy(Left(Left(Left(w))), 5) == LeftBy(Left(Left(Left(Left(Left(w))))), 3);
  }

  lemma FeedIsFeedBits(crc: bv16, b: byte)
    ensures Feed(crc, b) == FeedBits(crc, Bits8(b))
  {
    hide Top, Left, Plus, Aligned;
    ShiftsFeedBits(crc, Aligned(b), 8);
    ByteShiftedOut(b);
    PlusSelf(FeedBits(crc, Bits8(b)));
  }

  lemma {:induction false} FeedBitsConcat(crc: bv16, m: Bits, n: Bits)
    ensures FeedBits(crc, m + n) == FeedBits(FeedBits(crc, m), n)
    decreases |m|
  {
    if m == [] {
      assert m + n == n;
    } else {
      assert (m + n)[1..] == m[1..] + n;
      FeedBitsConcat(FeedBit(crc, m[0]), m[1..], n);
    }
  }

  lemma {:induction false} FeedAllIsFeedBits(crc: bv16, s: seq<byte>)
    ensures FeedAll(crc, s) == FeedBits(crc, MessageBits(s))
    decreases |s|
  {
    if s != [] {
      FeedIsFeedBits(crc, s[0]);
      FeedBitsConcat(crc, Bits8(s[0]), MessageBits(s[1..]));
      FeedAllIsFeedBits(Feed(crc, s[0]), s[1..]);
    }
  }

  /** What the field promises: the remainder of the message times x^16, its
      first sixteen coefficients complemented, on division by the generator. */
  function Complemented(m: Bits): (r: Bits)
    ensures |r| == |m| + 16
  {
    Xor(seq(16, _ => true) + Zeros(|m|), m + Zeros(16))
  }

  lemma Crc16IsRemainder(s: seq<byte>, r: Bits)
    ensures IsRemainder(Complemented(MessageBits(s)), r) <==> r == Bits16(Crc16(s))
  {
    var m := MessageBits(s);
    FeedAllIsFeedBits(0xFFFF, s);
    FeedBitsDivides(0xFFFF, m);
    OnesBits(|m| + 16);
    LongDivisionIsRemainder(Complemented(m), r);
  }

  method CRC16(s: seq<byte>) returns (crc: bv16)
    ensures crc == Crc16(s)
    ensures IsRemainder(Complemented(MessageBits(s)), Bits16(crc))
  {
    crc := 0xFFFF;
    var i := 0;
    while i < |s|
      invariant 0 <= i <= |s|
      invariant FeedAll(crc, s[i..]) == Crc16(s)
    {
      ghost var before := crc;
      crc := crc ^ ((s[i] as bv16) << 8);
      for k := 0 to 8
        invariant Shifts(crc, 8 - k) == Feed(before, s[i])
      {
        if crc & 0x8000 != 0 {
          crc := (crc << 1) ^ 0x1021;
        } else {
          crc := crc << 1;
        }
      }
      assert s[i..][1..] == s[i + 1..];
      i := i + 1;
    }
    Crc16IsRemainder(s, Bits16(crc));
  }
}
