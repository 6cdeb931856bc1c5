/** Byte strings: a Go string is its sequence of bytes. */
module Bytes {
  type byte = bv8
  type Text = seq<byte>

  predicate IsDigit(b: byte) {
    0x30 <= b <= 0x39
  }

  predicate AllDigits(s: Text) {
    s != [] && forall i :: 0 <= i < |s| ==> IsDigit(s[i])
  }

  function DigitValue(b: byte): (n: nat)
    requires IsDigit(b)
    ensures n <= 9
  {
    if b == 0x30 then 0 else if b == 0x31 then 1 else if b == 0x32 then 2
    else if b == 0x33 then 3 else if b == 0x34 then 4 else if b == 0x35 then 5
    else if b == 0x36 then 6 else if b == 0x37 then 7 else if b == 0x38 then 8 else 9
  }

  function DigitByte(n: nat): (b: byte)
    requires n <= 9
    ensures IsDigit(b) && DigitValue(b) == n
  {
    if n == 0 then 0x30 else if n == 1 then 0x31 else if n == 2 then 0x32
    else if n == 3 then 0x33 else if n == 4 then 0x34 else if n == 5 then 0x35
    else if n == 6 then 0x36 else if n == 7 then 0x37 else if n == 8 then 0x38 else 0x39
  }

  lemma DigitByteOfValue(b: byte)
    requires IsDigit(b)
    ensures DigitByte(DigitValue(b)) == b
  {
  }

  // ---- strings.TrimSpace: the white space of Unicode, as UTF-8

  /** Width of the white-space character at the start of `s`, or 0. */
  function SpaceAtStart(s: Text): (n: nat)
    ensures n <= |s|
  {
    if |s| >= 1 && (s[0] == 0x20 || 0x09 <= s[0] <= 0x0D) then 1
    else if |s| >= 2 && s[0] == 0xC2 && (s[1] == 0x85 || s[1] == 0xA0) then 2
    else if |s| >= 3 && WideSpace(s[..3]) then 3
    else 0
  }

  /** Width of the white-space character at the end of `s`, or 0. */
  function SpaceAtEnd(s: Text): (n: nat)
    ensures n <= |s|
  {
    var k := |s|;
    if k >= 1 && (s[k - 1] == 0x20 || 0x09 <= s[k - 1] <= 0x0D) then 1
    else if k >= 2 && s[k - 2] == 0xC2 && (s[k - 1] == 0x85 || s[k - 1] == 0xA0) then 2
    else if k >= 3 && WideSpace(s[k - 3..]) then 3
    else 0
  }

  /** U+1680, U+2000 to U+200A, U+2028, U+2029, U+202F, U+205F and U+3000. */
  predicate WideSpace(s: Text)
    requires |s| == 3
  {
    || s == [0xE1, 0x9A, 0x80]
    || (s[0] == 0xE2 && s[1] == 0x80 && (0x80 <= s[2] <= 0x8A || s[2] == 0xA8 || s[2] == 0xA9 || s[2] == 0xAF))
    || s == [0xE2, 0x81, 0x9F]
    || s == [0xE3, 0x80, 0x80]
  }

  function TrimLeft(s: Text): Text
    decreases |s|
  {
    if SpaceAtStart(s) == 0 then s else TrimLeft(s[SpaceAtStart(s)..])
  }

  function TrimRight(s: Text): Text
    decreases |s|
  {
    if SpaceAtEnd(s) == 0 then s else TrimRight(s[..|s| - SpaceAtEnd(s)])
  }

  function TrimSpace(s: Text): Text {
    TrimRight(TrimLeft(s))
  }

  lemma TrimIdentity(s: Text)
    requires |s| > 0
    requires 0x21 <= s[0] <= 0x7E && 0x21 <= s[|s| - 1] <= 0x7E
    ensures TrimSpace(s) == s
  {
    NoSpaceAtStart(s);
    NoSpaceAtEnd(s);
    hide SpaceAtStart, SpaceAtEnd;
  }

  lemma NoSpaceAtStart(s: Text)
    requires |s| > 0 && 0x21 <= s[0] <= 0x7E
    ensures SpaceAtStart(s) == 0
  {
  }

  lemma NoSpaceAtEnd(s: Text)
    requires |s| > 0 && 0x21 <= s[|s| - 1] <= 0x7E
    ensures SpaceAtEnd(s) == 0
  {
  }

  // ---- case folding over ASCII letters

  function UpperByte(b: byte): byte {
    if 0x61 <= b <= 0x7A then b - 0x20 else b
  }

  function ToUpper(s: Text): (r: Text)
    ensures |r| == |s|
  {
    seq(|s|, i requires 0 <= i < |s| => UpperByte(s[i]))
  }

  predicate EqualFold(s: Text, t: Text) {
    ToUpper(s) == ToUpper(t)
  }

  // ---- four upper-case hexadecimal digits

  function HexDigit(n: byte): (b: byte)
    requires n < 16
    ensures 0x30 <= b <= 0x39 || 0x41 <= b <= 0x46
  {
    if n < 10 then 0x30 + n else 0x37 + n
  }

  function Nibble(x: bv16): (n: byte)
    ensures n < 16
  {
    (x & 0xF) as byte
  }

  function Hex4(x: bv16): (s: Text)
    ensures |s| == 4
  {
    [HexDigit(Nibble(x >> 12)), HexDigit(Nibble(x >> 8)), HexDigit(Nibble(x >> 4)), HexDigit(Nibble(x))]
  }

  lemma HexDigitInjective(m: byte, n: byte)
    requires m < 16 && n < 16
    ensures HexDigit(m) == HexDigit(n) ==> m == n
  {
  }

  lemma NibblesInjective(x: bv16, y: bv16)
    requires Nibble(x >> 12) == Nibble(y >> 12) && Nibble(x >> 8) == Nibble(y >> 8)
    requires Nibble(x >> 4) == Nibble(y >> 4) && Nibble(x) == Nibble(y)
    ensures x == y
  {
  }

  lemma Hex4Injective(x: bv16, y: bv16)
    requires Hex4(x) == Hex4(y)
    ensures x == y
  {
    hide HexDigit, Nibble;
    assert Hex4(x)[0] == Hex4(y)[0] && Hex4(x)[1] == Hex4(y)[1];
    assert Hex4(x)[2] == Hex4(y)[2] && Hex4(x)[3] == Hex4(y)[3];
    HexDigitInjective(Nibble(x >> 12), Nibble(y >> 12));
    HexDigitInjective(Nibble(x >> 8), Nibble(y >> 8));
    HexDigitInjective(Nibble(x >> 4), Nibble(y >> 4));
    HexDigitInjective(Nibble(x), Nibble(y));
    NibblesInjective(x, y);
  }

  lemma Hex4Upper(x: bv16)
    ensures ToUpper(Hex4(x)) == Hex4(x)
  {
    hide Nibble;
  }

  // ---- strings.LastIndex

  predicate OccursAt(s: Text, pat: Text, i: int) {
    0 <= i <= |s| - |pat| && s[i..i + |pat|] == pat
  }

  /** The last place `pat` occurs in `s`, or -1. */
  function LastIndex(s: Text, pat: Text): (i: int)
    ensures i == -1 || OccursAt(s, pat, i)
    ensures forall j :: OccursAt(s, pat, j) ==> j <= i
  {
    LastIndexFrom(s, pat, |s| - |pat|)
  }

  function LastIndexFrom(s: Text, pat: Text, from: int): (i: int)
    requires from <= |s| - |pat|
    ensures i == -1 || OccursAt(s, pat, i)
    ensures forall j :: j <= from && OccursAt(s, pat, j) ==> j <= i
    decreases from + 1
  {
    if from < 0 then -1
    else if OccursAt(s, pat, from) then from
    else LastIndexFrom(s, pat, from - 1)
  }
}
