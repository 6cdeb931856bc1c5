/** The digits in a code: the two decimal ones of a length and the four hexadecimal ones of
    the CRC, whose letters may be of either case (internal/brcode/brcode.go). */
module BrCodeDigits {
  import opened Wrappers
  import opened Bytes
  import opened Crc
  import opened BrCode
  import opened BrCodeTheorems

  /** What a decimal digit counts. */
  ghost function Units(b: byte): int {
    match b
    case 0x30 => 0
    case 0x31 => 1
    case 0x32 => 2
    case 0x33 => 3
    case 0x34 => 4
    case 0x35 => 5
    case 0x36 => 6
    case 0x37 => 7
    case 0x38 => 8
    case 0x39 => 9
    case _ => -1
  }

  lemma DigitCounts(b: byte)
    requires IsDigit(b)
    ensures Units(b) == DigitValue(b) && DigitByte(DigitValue(b)) == b
  {
  }

  /** The length of a field is written in decimal, and read so. */
  lemma LengthInDecimal(n: nat, s: Text)
    requires n <= 99 && |s| == 2
    ensures s == TwoDigits(n) <==> AllDigits(s) && 10 * Units(s[0]) + Units(s[1]) == n
    ensures AllDigits(s) ==> LengthOf(s) == 10 * Units(s[0]) + Units(s[1])
  {
    hide Units, DigitValue, DigitByte, IsDigit;
    var t := TwoDigits(n);
    DigitCounts(t[0]);
    DigitCounts(t[1]);
    if AllDigits(s) {
      DigitCounts(s[0]);
      DigitCounts(s[1]);
      assert s == [s[0], s[1]];
    }
  }

  /** What an upper-case hexadecimal digit counts. */
  ghost function Sixteenths(b: byte): bv16 {
    if 0x30 <= b <= 0x39 then (b - 0x30) as bv16 else if 0x41 <= b <= 0x46 then (b - 0x41) as bv16 + 10 else 0
  }

  lemma HexCounts(n: byte)
    requires n < 16
    ensures Sixteenths(HexDigit(n)) == n as bv16
  {
  }

  lemma NibblesAre(x: bv16)
    ensures x == (Nibble(x >> 12) as bv16 << 12) | (Nibble(x >> 8) as bv16 << 8) | (Nibble(x >> 4) as bv16 << 4) | Nibble(x) as bv16
  {
  }

  /** The check text is the CRC in hexadecimal, the high digit first. */
  lemma CheckInHex(x: bv16)
    ensures
      var s := Hex4(x);
      x == (Sixteenths(s[0]) << 12) | (Sixteenths(s[1]) << 8) | (Sixteenths(s[2]) << 4) | Sixteenths(s[3])
  {
    hide Nibble, HexDigit, Sixteenths;
    NibblesAre(x);
    HexCounts(Nibble(x >> 12));
    HexCounts(Nibble(x >> 8));
    HexCounts(Nibble(x >> 4));
    HexCounts(Nibble(x));
  }

  // ---- the case of the check digits

  /** The same byte, or the same letter in lower case. */
  predicate Recased(b: byte, c: byte) {
    c == b || (0x41 <= b <= 0x5A && c == b + 0x20)
  }

  ghost predicate AllRecased(s: Text, t: Text) {
    |s| == |t| && forall i :: 0 <= i < |s| ==> Recased(s[i], t[i])
  }

  lemma UpperSame(b: byte, c: byte)
    ensures UpperByte(b) == UpperByte(c) <==> Recased(b, c) || Recased(c, b)
  {
  }

  /** The check is compared letter by letter without regard to case. */
  lemma FoldsLetterwise(s: Text, t: Text)
    ensures EqualFold(s, t) <==> |s| == |t| && forall i :: 0 <= i < |s| ==> Recased(s[i], t[i]) || Recased(t[i], s[i])
  {
    hide UpperByte, Recased;
    var u, v := ToUpper(s), ToUpper(t);
    forall i | 0 <= i < |s| && i < |t| ensures u[i] == v[i] <==> Recased(s[i], t[i]) || Recased(t[i], s[i]) {
      UpperSame(s[i], t[i]);
    }
  }

  lemma RecasedUpper(s: Text, t: Text)
    requires AllRecased(s, t)
    ensures ToUpper(s) == ToUpper(t)
  {
    forall i | 0 <= i < |s| ensures UpperByte(s[i]) == UpperByte(t[i]) {
      assert Recased(s[i], t[i]);
    }
  }

  /** Digits have no case. */
  lemma RecasedTag(s: Text, t: Text)
    requires AllRecased(s, t) && |s| == 4
    ensures s == CRC_TAG <==> t == CRC_TAG
  {
    assert Recased(s[0], t[0]) && Recased(s[1], t[1]) && Recased(s[2], t[2]) && Recased(s[3], t[3]);
    assert s == [s[0], s[1], s[2], s[3]] && t == [t[0], t[1], t[2], t[3]];
  }

  lemma RecasedPrintable(x: bv16, h: Text)
    requires AllRecased(Hex4(x), h)
    ensures 0x21 <= h[3] <= 0x7E
  {
    hide Nibble;
    assert Recased(Hex4(x)[3], h[3]);
  }

  lemma SameMatch(body: Text, crc: Text, h: Text)
    requires |crc| == 4 && AllRecased(crc, h)
    ensures CrcMatches(body + CRC_TAG + crc, ToUpper(crc)) == CrcMatches(body + CRC_TAG + h, ToUpper(h))
  {
    RecasedUpper(crc, h);
    RecasedTag(crc, h);
    hide ToUpper, Recased, LastIndex, Crc16, Hex4;
    TagPlace(body, crc);
    TagPlace(body, h);
    if crc != CRC_TAG {
      assert (body + CRC_TAG + crc)[..|body| + 4] == body + CRC_TAG == (body + CRC_TAG + h)[..|body| + 4];
    } else {
      assert crc == h;
    }
  }

  /** The fields of an encoded payload with another check text in field 63. */
  lemma OtherCheck(p: Payload, account: Text, extra: Text, body: Text, h: Text)
    requires |h| == 4 && EncodeTlvs(BodyFields(p, account, extra)) == Ok(body)
    ensures ParseTlvs(body + CRC_TAG + h) == Ok(AllFields(p, account, extra, h))
  {
    hide BodyFields, EncodeTlvs, ParseTlvs;
    var fields := AllFields(p, account, extra, h);
    CrcFieldText(h);
    EncodeConcat(BodyFields(p, account, extra), [Tlv(ID_CRC, h)]);
    assert body + (CRC_TAG + h) == body + CRC_TAG + h;
    EncodesIffShort(fields);
    AllFieldsIds(p, account, extra, h);
    ParseOfEncode(fields);
  }

  lemma StaysTrimmed(body: Text, h: Text)
    requires |body| > 0 && body[0] == 0x30 && |h| == 4 && 0x21 <= h[3] <= 0x7E
    ensures TrimSpace(body + CRC_TAG + h) == body + CRC_TAG + h
  {
    hide TrimSpace;
    TrimIdentity(body + CRC_TAG + h);
  }

  /** What a code says when its fields and its check say the same. */
  lemma SameReading(code: Text, other: Text, f: seq<Tlv>, g: seq<Tlv>)
    requires TrimSpace(code) == code && TrimSpace(other) == other && ParseTlvs(code) == Ok(f) && ParseTlvs(other) == Ok(g)
    requires forall id :: id != ID_CRC ==> Find(f, id) == Find(g, id)
    requires ToUpper(Find(f, ID_CRC)) == ToUpper(Find(g, ID_CRC))
    requires CrcMatches(code, ToUpper(Find(f, ID_CRC))) == CrcMatches(other, ToUpper(Find(g, ID_CRC)))
    ensures Parse(other) == Parse(code)
  {
    hide TrimSpace, ParseTlvs, Find, ToUpper, CrcMatches;
  }

  lemma OnlyTheCheck(f: seq<Tlv>, crc: Text, h: Text)
    requires Absent(f, ID_CRC)
    ensures forall id :: id != ID_CRC ==> Find(f + [Tlv(ID_CRC, crc)], id) == Find(f + [Tlv(ID_CRC, h)], id)
    ensures Find(f + [Tlv(ID_CRC, crc)], ID_CRC) == crc && Find(f + [Tlv(ID_CRC, h)], ID_CRC) == h
  {
    FindAt(f + [Tlv(ID_CRC, crc)], ID_CRC, |f|);
    FindAt(f + [Tlv(ID_CRC, h)], ID_CRC, |f|);
    forall id | id != ID_CRC ensures Find(f + [Tlv(ID_CRC, crc)], id) == Find(f + [Tlv(ID_CRC, h)], id) {
      FindAppend(f, [Tlv(ID_CRC, crc)], id);
      FindAppend(f, [Tlv(ID_CRC, h)], id);
    }
  }

  lemma SealedEnds(body: Text, h: Text)
    ensures
      var code := Sealed(body);
      |code| >= 4 && code[|code| - 4..] == CrcText(body) && code[..|code| - 4] + h == body + CRC_TAG + h
  {
    hide Crc16, Hex4;
  }

  lemma ReadsAlike(p: Payload, account: Text, extra: Text, body: Text, h: Text)
    requires EncodeTlvs(BodyFields(p, account, extra)) == Ok(body)
    requires ParseTlvs(Sealed(body)) == Ok(AllFields(p, account, extra, CrcText(body)))
    requires AllRecased(CrcText(body), h)
    ensures Parse(body + CRC_TAG + h) == Parse(Sealed(body))
  {
    BodyOpens(p, account, extra, body);
    BodyHasNoCrcField(p, account, extra);
    hide BodyFields, Crc16, Hex4, Find, TrimSpace, CrcMatches, EncodeTlvs, ParseTlvs, ToUpper, Recased, Absent, Parse;
    var crc := CrcText(body);
    RecasedPrintable(Crc16(body + CRC_TAG), h);
    TrimmedCode(Sealed(body), body, Crc16(body + CRC_TAG));
    StaysTrimmed(body, h);
    OtherCheck(p, account, extra, body, h);
    SameMatch(body, crc, h);
    RecasedUpper(crc, h);
    OnlyTheCheck(BodyFields(p, account, extra), crc, h);
    SameReading(Sealed(body), body + CRC_TAG + h, AllFields(p, account, extra, crc), AllFields(p, account, extra, h));
  }

  /** The letters of the check may be of either case: the code reads and validates as
      before. */
  lemma CheckInEitherCase(p: Payload, h: Text)
    requires EncodePayload(p).Ok?
    requires |EncodePayload(p).value| >= 4 ==> AllRecased(EncodePayload(p).value[|EncodePayload(p).value| - 4..], h)
    ensures
      var code := EncodePayload(p).value;
      && |code| >= 4
      && Parse(code[..|code| - 4] + h) == Parse(code) && ValidateCode(code[..|code| - 4] + h) == ValidateCode(code)
  {
    hide *;
    var account, extra, body := EncodedFields(p);
    SealedEnds(body, h);
    ReadsAlike(p, account, extra, body, h);
    ValidatesAlike(body + CRC_TAG + h, Sealed(body));
  }

  lemma ValidatesAlike(code: Text, other: Text)
    requires Parse(code) == Parse(other)
    ensures ValidateCode(code) == ValidateCode(other)
  {
    hide Parse;
  }
}
