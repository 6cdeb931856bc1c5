/** Which corruptions the check field is certain to notice. */
module CrcStrength {
  import opened Bytes
  import opened Gf2
  import opened Crc

  // ---- the register is a linear function of register and message

  lemma PlusAssociative(x: bv16, y: bv16, z: bv16)
    ensures Plus(x, Plus(y, z)) == Plus(Plus(x, y), z)
  {
  }

  lemma FeedBitPlus(x: bv16, y: bv16, a: bool, b: bool)
    ensures Plus(FeedBit(x, a), FeedBit(y, b)) == FeedBit(Plus(x, y), a != b)
  {
    hide Top, Left, Plus;
    var p, q := Left(x), Left(y);
    PlusShift(x, y);
    PlusSwap(p, POLYNOMIAL, q);
    PlusAssociative(p, q, POLYNOMIAL);
    PlusAssociative(Plus(p, POLYNOMIAL), q, POLYNOMIAL);
    PlusTwice(Plus(p, q), POLYNOMIAL);
  }

  lemma {:induction false} FeedBitsPlus(x: bv16, y: bv16, m: Bits, n: Bits)
    requires |m| == |n|
    ensures Plus(FeedBits(x, m), FeedBits(y, n)) == FeedBits(Plus(x, y), Xor(m, n))
    decreases |m|
  {
    hide Top, Left, Plus, FeedBit;
    if m != [] {
      FeedBitPlus(x, y, m[0], n[0]);
      FeedBitsPlus(FeedBit(x, m[0]), FeedBit(y, n[0]), m[1..], n[1..]);
      assert Xor(m, n)[1..] == Xor(m[1..], n[1..]);
    }
  }

  // ---- feeding zeros loses nothing

  lemma FeedFalse(x: bv16)
    ensures FeedBit(x, false) == 0 ==> x == 0
  {
  }

  lemma {:induction false} FeedZerosNonzero(x: bv16, n: nat)
    requires x != 0
    ensures FeedBits(x, Zeros(n)) != 0
    decreases n
  {
    hide FeedBit;
    if n > 0 {
      FeedFalse(x);
      assert Zeros(n)[1..] == Zeros(n - 1);
      FeedZerosNonzero(FeedBit(x, false), n - 1);
    }
  }

  // ---- sixteen bits fed into a clear register are a bijection

  lemma ShiftNonzero(x: bv16)
    ensures x != 0 ==> Shift(x) != 0
  {
  }

  lemma {:induction false} ShiftsNonzero(x: bv16, n: nat)
    requires x != 0
    ensures Shifts(x, n) != 0
    decreases n
  {
    hide Shift;
    if n > 0 {
      ShiftNonzero(x);
      ShiftsNonzero(Shift(x), n - 1);
    }
  }

  /** Ones in the 16 - n lowest places. */
  function LowMask(n: nat): bv16
    decreases n
  {
    if n == 0 then 0xFFFF else LowMask(n - 1) >> 1
  }

  lemma LowMaskValues()
    ensures LowMask(0) == 0xFFFF && LowMask(1) == 0x7FFF && LowMask(2) == 0x3FFF && LowMask(3) == 0x1FFF
    ensures LowMask(4) == 0x0FFF && LowMask(5) == 0x07FF && LowMask(6) == 0x03FF && LowMask(7) == 0x01FF
    ensures LowMask(8) == 0x00FF && LowMask(9) == 0x007F && LowMask(10) == 0x003F && LowMask(11) == 0x001F
    ensures LowMask(12) == 0x000F && LowMask(13) == 0x0007 && LowMask(14) == 0x0003 && LowMask(15) == 0x0001
  {
    assert LowMask(2) == 0x3FFF;
    assert LowMask(4) == 0x0FFF;
    assert LowMask(6) == 0x03FF;
    assert LowMask(8) == 0x00FF;
    assert LowMask(10) == 0x003F;
    assert LowMask(12) == 0x000F;
    assert LowMask(14) == 0x0003;
  }

  lemma LowMaskOdd(n: nat)
    requires n <= 15
    ensures LowMask(n) & 1 == 1
  {
    LowMaskValues();
  }

  /** The register with `bit` above `y`. */
  function Prepended(bit: bool, y: bv16): bv16 {
    (if bit then 0x8000 else 0) | (y >> 1)
  }

  predicate Clear(x: bv16, mask: bv16) {
    x & mask == 0
  }

  predicate Odd(mask: bv16) {
    mask & 1 == 1
  }

  function Half(mask: bv16): bv16 {
    mask >> 1
  }

  lemma PrependBit(bit: bool, y: bv16, mask: bv16)
    requires Clear(y, mask) && Odd(mask)
    ensures Top(Prepended(bit, y)) == bit && Left(Prepended(bit, y)) == y
  {
  }

  lemma PrependClear(bit: bool, y: bv16, mask: bv16)
    requires Clear(y, mask) && Odd(mask)
    ensures Clear(Prepended(bit, y), Half(mask))
  {
  }

  lemma NextMask(n: nat)
    requires n <= 15
    ensures Odd(LowMask(n)) && LowMask(n + 1) == Half(LowMask(n))
  {
    LowMaskOdd(n);
  }

  predicate Fits(w: Bits, x: bv16)
    requires |w| <= 16
  {
    TopBits(x, |w|) == w && LeftBy(x, |w|) == 0 && Clear(x, LowMask(|w|))
  }

  lemma PrependedFits(w: Bits, y: bv16)
    requires 0 < |w| <= 16 && Fits(w[1..], y)
    ensures Fits(w, Prepended(w[0], y))
  {
    hide Top, Left, LowMask, Prepended, Clear, Odd, Half;
    NextMask(|w| - 1);
    PrependBit(w[0], y, LowMask(|w| - 1));
    PrependClear(w[0], y, LowMask(|w| - 1));
    assert TopBits(Prepended(w[0], y), |w|) == [w[0]] + w[1..];
  }

  lemma EmptyFits()
    ensures Fits([], 0)
  {
  }

  /** Every string of at most sixteen bits is the top of some register. */
  lemma {:induction false} RegisterOf(w: Bits) returns (x: bv16)
    requires |w| <= 16
    ensures TopBits(x, |w|) == w && LeftBy(x, |w|) == 0
    ensures Fits(w, x)
    decreases |w|
  {
    hide Top, Left, LowMask, Prepended, TopBits, LeftBy, Clear;
    if w == [] {
      x := 0;
      EmptyFits();
    } else {
      var y := RegisterOf(w[1..]);
      PrependedFits(w, y);
      x := Prepended(w[0], y);
    }
  }

  lemma FeedWindow(w: Bits)
    requires |w| <= 16 && w != Zeros(|w|)
    ensures FeedBits(0, w) != 0
  {
    var x := RegisterOf(w);
    if x == 0 {
      TopBitsZero(|w|);
    }
    ShiftsFeedBits(0, x, |w|);
    ShiftsNonzero(x, |w|);
    PlusSelf(x);
    PlusSelf(FeedBits(0, w));
    PlusZeroLeft(x);
  }

  lemma PlusZeroLeft(x: bv16)
    ensures Plus(0, x) == x
  {
  }

  lemma PlusIsZero(x: bv16, y: bv16)
    ensures Plus(x, y) == 0 <==> x == y
  {
    PlusTwice(x, y);
    PlusSelf(x);
    PlusZeroLeft(y);
    hide Plus;
  }

  lemma FeedBitsInjective(x: bv16, y: bv16, m: Bits)
    requires x != y
    ensures FeedBits(x, m) != FeedBits(y, m)
  {
    hide FeedBit, Plus;
    PlusIsZero(x, y);
    FeedBitsPlus(x, y, m, m);
    assert Xor(m, m) == Zeros(|m|);
    FeedZerosNonzero(Plus(x, y), |m|);
    PlusIsZero(FeedBits(x, m), FeedBits(y, m));
  }

  lemma WindowSeparates(x: bv16, u: Bits, v: Bits)
    requires |u| == |v| <= 16 && u != v
    ensures FeedBits(x, u) != FeedBits(x, v)
  {
    hide FeedBit, Plus;
    var e := Xor(u, v);
    var i :| 0 <= i < |u| && u[i] != v[i];
    assert e[i] && !Zeros(|u|)[i];
    FeedWindow(e);
    PlusIsZero(x, x);
    FeedBitsPlus(x, x, u, v);
    PlusIsZero(FeedBits(x, u), FeedBits(x, v));
  }

  /** Two messages that differ only inside a window of sixteen bits leave
      different registers, whatever register both started from. */
  lemma BurstDetected(x: bv16, a: Bits, u: Bits, v: Bits, c: Bits)
    requires |u| == |v| <= 16 && u != v
    ensures FeedBits(x, a + u + c) != FeedBits(x, a + v + c)
  {
    hide FeedBit, Plus, Top, Left;
    FeedBitsConcat(x, a + u, c);
    FeedBitsConcat(x, a + v, c);
    FeedBitsConcat(x, a, u);
    FeedBitsConcat(x, a, v);
    WindowSeparates(FeedBits(x, a), u, v);
    FeedBitsInjective(FeedBits(FeedBits(x, a), u), FeedBits(FeedBits(x, a), v), c);
  }

  // ---- the same for bytes

  lemma {:induction false} MessageBitsConcat(s: seq<byte>, t: seq<byte>)
    ensures MessageBits(s + t) == MessageBits(s) + MessageBits(t)
    decreases |s|
  {
    if s == [] {
      assert s + t == t;
    } else {
      assert (s + t)[1..] == s[1..] + t;
      MessageBitsConcat(s[1..], t);
    }
  }

  lemma ClearRegister(x: bv16)
    ensures !Top(x) && Left(x) == 0 ==> x == 0
  {
  }

  lemma {:induction false} TopBitsNonzero(x: bv16, n: nat)
    requires LeftBy(x, n) == 0 && TopBits(x, n) == Zeros(n)
    ensures x == 0
    decreases n
  {
    hide Top, Left;
    if n > 0 {
      ClearRegister(x);
      assert TopBits(x, n)[0] == Zeros(n)[0];
      assert TopBits(x, n)[1..] == TopBits(Left(x), n - 1);
      assert Zeros(n)[1..] == Zeros(n - 1);
      TopBitsNonzero(Left(x), n - 1);
    }
  }

  lemma AlignedPlus(b: byte, c: byte)
    ensures Plus(Aligned(b), Aligned(c)) == Aligned(b ^ c)
    ensures Aligned(b ^ c) == 0 ==> b == c
  {
  }

  lemma Bits8Injective(b: byte, c: byte)
    requires b != c
    ensures Bits8(b) != Bits8(c)
  {
    hide Top, Left, Plus, Aligned;
    AlignedPlus(b, c);
    TopBitsPlus(Aligned(b), Aligned(c), 8);
    ByteShiftedOut(b ^ c);
    if Bits8(b) == Bits8(c) {
      assert Xor(Bits8(b), Bits8(c)) == Zeros(8);
      TopBitsNonzero(Aligned(b ^ c), 8);
    }
  }

  lemma {:induction false} MessageBitsInjective(s: seq<byte>, t: seq<byte>)
    requires |s| == |t| && s != t
    ensures MessageBits(s) != MessageBits(t)
    decreases |s|
  {
    hide Bits8;
    var m, n := MessageBits(s), MessageBits(t);
    assert m[..8] == Bits8(s[0]) && m[8..] == MessageBits(s[1..]);
    assert n[..8] == Bits8(t[0]) && n[8..] == MessageBits(t[1..]);
    if s[0] != t[0] {
      Bits8Injective(s[0], t[0]);
    } else {
      assert s == [s[0]] + s[1..] && t == [t[0]] + t[1..];
      MessageBitsInjective(s[1..], t[1..]);
    }
  }

  /** Equal-length strings that differ only in one byte, or only in two adjacent
      bytes, never share a CRC. */
  lemma AdjacentBytesDetected(a: seq<byte>, u: seq<byte>, v: seq<byte>, c: seq<byte>)
    requires |u| == |v| <= 2 && u != v
    ensures Crc16(a + u + c) != Crc16(a + v + c)
  {
    FeedAllIsFeedBits(0xFFFF, a + u + c);
    FeedAllIsFeedBits(0xFFFF, a + v + c);
    MessageBitsConcat(a + u, c);
    MessageBitsConcat(a + v, c);
    MessageBitsConcat(a, u);
    MessageBitsConcat(a, v);
    MessageBitsInjective(u, v);
    BurstDetected(0xFFFF, MessageBits(a), MessageBits(u), MessageBits(v), MessageBits(c));
  }

  // ---- parity: the generator has x + 1 as a factor

  function Parity(m: Bits): bool {
    if m == [] then false else m[0] != Parity(m[1..])
  }

  lemma {:induction false} ParityXor(m: Bits, n: Bits)
    requires |m| == |n|
    ensures Parity(Xor(m, n)) == (Parity(m) != Parity(n))
    decreases |m|
  {
    if m != [] {
      assert Xor(m, n)[1..] == Xor(m[1..], n[1..]);
      ParityXor(m[1..], n[1..]);
    }
  }

  lemma {:induction false} ParityZeros(m: Bits, n: nat)
    ensures Parity(m + Zeros(n)) == Parity(m)
    decreases n
  {
    if n == 0 {
      assert m + Zeros(0) == m;
    } else {
      assert m + Zeros(n) == m + Zeros(n - 1) + [false];
      ParityAppend(m + Zeros(n - 1), false);
      ParityZeros(m, n - 1);
    }
  }

  lemma {:induction false} ParityAppend(m: Bits, bit: bool)
    ensures Parity(m + [bit]) == (Parity(m) != bit)
    decreases |m|
  {
    if m == [] {
      assert m + [bit] == [bit];
    } else {
      assert (m + [bit])[1..] == m[1..] + [bit];
      ParityAppend(m[1..], bit);
    }
  }

  lemma ParityStep(x: bv16, n: nat)
    requires n > 0
    ensures Parity(TopBits(x, n)) == (Top(x) != Parity(TopBits(Left(x), n - 1)))
  {
  }

  lemma {:induction false} ParityConcat(m: Bits, n: Bits)
    ensures Parity(m + n) == (Parity(m) != Parity(n))
    decreases |m|
  {
    if m == [] {
      assert m + n == n;
    } else {
      assert (m + n)[1..] == m[1..] + n;
      ParityConcat(m[1..], n);
    }
  }

  lemma PolynomialParity()
    ensures Parity(Bits16(POLYNOMIAL))
  {
    PolynomialHigh(16);
    PolynomialLow(8);
    hide Top, Left;
    assert TopBits(0, 0) == [];
    var high, low := HIGH_BITS, LOW_BITS;
    assert Bits16(POLYNOMIAL) == high + low;
    hide Parity, TopBits, Bits16;
    ParityOfEight(high);
    ParityOfEight(low);
    ParityConcat(high, low);
  }

  lemma ParityFrom(s: Bits, k: nat)
    requires k < |s|
    ensures Parity(s[k..]) == (s[k] != Parity(s[k + 1..]))
  {
    assert s[k..][1..] == s[k + 1..];
  }

  lemma ParityOfEight(s: Bits)
    requires |s| == 8
    ensures Parity(s) == (s[0] != (s[1] != (s[2] != (s[3] != (s[4] != (s[5] != (s[6] != s[7])))))))
  {
    ParityFrom(s, 7);
    assert !Parity(s[8..]);
    hide Parity;
    ParityFrom(s, 6);
    ParityFrom(s, 5);
    ParityFrom(s, 4);
    ParityFrom(s, 3);
    ParityFrom(s, 2);
    ParityFrom(s, 1);
    ParityFrom(s, 0);
    assert s[0..] == s;
  }

  lemma LeftParity(x: bv16)
    ensures Parity(Bits16(Left(x))) == (Parity(Bits16(x)) != Top(x))
  {
    hide Top, Left;
    LeftBits(x);
    ParityStep(x, 16);
    ParityAppend(TopBits(Left(x), 15), false);
  }

  /** A shift brings in a zero. */
  lemma LeftBits(x: bv16)
    ensures Bits16(Left(x)) == TopBits(Left(x), 15) + [false]
  {
    AppendTopBit(Left(x), 15);
    ShiftedOut(x);
  }

  lemma {:induction false} AppendTopBit(x: bv16, n: nat)
    ensures TopBits(x, n + 1) == TopBits(x, n) + [Top(LeftBy(x, n))]
    decreases n
  {
    hide Top, Left;
    if n > 0 {
      AppendTopBit(Left(x), n - 1);
    }
  }

  lemma ShiftedOut(x: bv16)
    ensures LeftBy(Left(x), 15) == 0
  {
    var y := Left(Left(Left(Left(x))));
    var z := Left(Left(Left(Left(y))));
    assert LeftBy(Left(x), 15) == LeftBy(y, 12);
    assert LeftBy(y, 12) == LeftBy(z, 8);
    assert LeftBy(z, 8) == LeftBy(Left(Left(Left(Left(z)))), 4);
  }

  lemma FeedBitParity(x: bv16, bit: bool)
    ensures Parity(Bits16(FeedBit(x, bit))) == (Parity(Bits16(x)) != bit)
  {
    hide Top, Left, Plus;
    LeftParity(x);
    PolynomialParity();
    TopBitsPlus(Left(x), POLYNOMIAL, 16);
    ParityXor(Bits16(Left(x)), Bits16(POLYNOMIAL));
  }

  lemma {:induction false} FeedBitsParity(x: bv16, m: Bits)
    ensures Parity(Bits16(FeedBits(x, m))) == (Parity(Bits16(x)) != Parity(m))
    decreases |m|
  {
    hide FeedBit, Bits16;
    if m != [] {
      FeedBitParity(x, m[0]);
      FeedBitsParity(FeedBit(x, m[0]), m[1..]);
    }
  }

  /** The CRC has the parity of the message, so any corruption that flips an odd
      number of bits, wherever they are, changes it. */
  lemma OddErrorsDetected(s: seq<byte>, t: seq<byte>)
    requires |s| == |t| && Parity(Xor(MessageBits(s), MessageBits(t)))
    ensures Crc16(s) != Crc16(t)
  {
    FeedAllIsFeedBits(0xFFFF, s);
    FeedAllIsFeedBits(0xFFFF, t);
    FeedBitsParity(0xFFFF, MessageBits(s));
    FeedBitsParity(0xFFFF, MessageBits(t));
    ParityXor(MessageBits(s), MessageBits(t));
  }
}
