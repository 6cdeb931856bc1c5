/** What the BR Code functions promise together. */
module BrCodeTheorems {
  import opened Bytes
  import opened Gf2
  import opened Crc
  import opened CrcStrength
  import opened Wrappers
  import opened BrCode
  import opened BrCodeValidate

  /** The payload a reader gets back: an empty txid reads "***", a URL makes the
      code dynamic and drops the description, the initiation point option is not
      part of the code, and the CRC text is filled in. */
  function Normalised(p: Payload, crc: Text, crcValid: bool): Payload {
    Payload(
      p.key, p.url, if p.url != [] then [] else p.description,
      p.merchantName, p.city, p.amount, TxIdOf(p),
      IsDynamic(p), crc, crcValid, false)
  }

  function CrcText(body: Text): Text {
    Hex4(Crc16(body + CRC_TAG))
  }

  function AllFields(p: Payload, account: Text, extra: Text, crc: Text): seq<Tlv> {
    BodyFields(p, account, extra) + [Tlv(ID_CRC, crc)]
  }

  // ---- looking fields up

  predicate Absent(f: seq<Tlv>, id: Text) {
    forall j :: 0 <= j < |f| ==> f[j].id != id
  }

  predicate Present(f: seq<Tlv>, id: Text) {
    exists j :: 0 <= j < |f| && f[j].id == id
  }

  lemma {:induction false} FindAt(fields: seq<Tlv>, id: Text, i: nat)
    requires i < |fields| && fields[i].id == id
    requires forall j :: 0 <= j < i ==> fields[j].id != id
    ensures Find(fields, id) == fields[i].val
  {
    if i > 0 {
      FindAt(fields[1..], id, i - 1);
    }
  }

  lemma {:induction false} FindAbsent(fields: seq<Tlv>, id: Text)
    requires Absent(fields, id)
    ensures Find(fields, id) == []
  {
    if fields != [] {
      FindAbsent(fields[1..], id);
    }
  }

  lemma {:induction false} FindAppend(f: seq<Tlv>, g: seq<Tlv>, id: Text)
    ensures Present(f, id) ==> Find(f + g, id) == Find(f, id)
    ensures Absent(f, id) ==> Find(f + g, id) == Find(g, id)
  {
    if f == [] {
      assert f + g == g;
    } else {
      assert (f + g)[1..] == f[1..] + g;
      FindAppend(f[1..], g, id);
    }
  }

  lemma AccountLookup(p: Payload)
    requires p.key == [] || p.url == []
    ensures Find(AccountFields(p), ID_PIX_KEY) == p.key
    ensures Find(AccountFields(p), ID_PIX_URL) == p.url
    ensures Find(AccountFields(p), ID_PIX_DESCRIPTION) == if p.url != [] then [] else p.description
  {
    var f := AccountFields(p);
    if p.url != [] {
      assert f == [Tlv(ID_GUI, PIX_GUI), Tlv(ID_PIX_URL, p.url)];
      FindAt(f, ID_PIX_URL, 1);
      FindAbsent(f, ID_PIX_KEY);
      FindAbsent(f, ID_PIX_DESCRIPTION);
    } else {
      assert f[1] == Tlv(ID_PIX_KEY, p.key);
      FindAt(f, ID_PIX_KEY, 1);
      FindAbsent(f, ID_PIX_URL);
      if p.description != [] {
        assert f[2] == Tlv(ID_PIX_DESCRIPTION, p.description);
        FindAt(f, ID_PIX_DESCRIPTION, 2);
      } else {
        FindAbsent(f, ID_PIX_DESCRIPTION);
      }
    }
  }

  /** The first part that has the id answers. */
  lemma FindInParts(a: seq<Tlv>, b: seq<Tlv>, c: seq<Tlv>, d: seq<Tlv>, e: seq<Tlv>, id: Text)
    ensures var f := a + b + c + d + e;
      && (Present(a, id) ==> Find(f, id) == Find(a, id))
      && (Absent(a, id) && Present(b, id) ==> Find(f, id) == Find(b, id))
      && (Absent(a, id) && Absent(b, id) ==> Find(f, id) == Find(c + (d + e), id))
      && (Absent(a, id) && Absent(b, id) && Absent(c, id) ==> Find(f, id) == Find(d + e, id))
  {
    assert a + b + c + d + e == a + (b + (c + (d + e)));
    FindAppend(a, b + (c + (d + e)), id);
    FindAppend(b, c + (d + e), id);
    FindAppend(c, d + e, id);
  }

  lemma OpeningLookup(p: Payload)
    ensures var f := OpeningFields(p);
      && Find(f, ID_INITIATION_POINT) == (if IsDynamic(p) then DYNAMIC else if p.omitInitiationPoint then [] else STATIC)
      && Absent(f, ID_MERCHANT_ACCOUNT) && Absent(f, ID_AMOUNT) && Absent(f, ID_MERCHANT_NAME)
      && Absent(f, ID_MERCHANT_CITY) && Absent(f, ID_ADDITIONAL_DATA) && Absent(f, ID_CRC)
      && (!IsDynamic(p) && p.omitInitiationPoint ==> Absent(f, ID_INITIATION_POINT))
      && (IsDynamic(p) || !p.omitInitiationPoint ==> Present(f, ID_INITIATION_POINT))
  {
    var f := OpeningFields(p);
    assert f[0].id == ID_PAYLOAD_FORMAT;
    if IsDynamic(p) || !p.omitInitiationPoint {
      FindAt(f, ID_INITIATION_POINT, 1);
    } else {
      FindAbsent(f, ID_INITIATION_POINT);
    }
  }

  lemma AccountPartLookup(account: Text)
    ensures var f := AccountAndCurrency(account);
      && Find(f, ID_MERCHANT_ACCOUNT) == account && Present(f, ID_MERCHANT_ACCOUNT)
      && Absent(f, ID_INITIATION_POINT) && Absent(f, ID_AMOUNT) && Absent(f, ID_MERCHANT_NAME)
      && Absent(f, ID_MERCHANT_CITY) && Absent(f, ID_ADDITIONAL_DATA) && Absent(f, ID_CRC)
  {
    var f := AccountAndCurrency(account);
    FindAt(f, ID_MERCHANT_ACCOUNT, 0);
    assert f[0].id == ID_MERCHANT_ACCOUNT;
  }

  lemma ClosingLookup(p: Payload, extra: Text, crc: Text)
    ensures var f := ClosingFields(p, extra) + [Tlv(ID_CRC, crc)];
      && Find(f, ID_MERCHANT_NAME) == p.merchantName && Find(f, ID_MERCHANT_CITY) == p.city
      && Find(f, ID_ADDITIONAL_DATA) == extra && Find(f, ID_CRC) == crc
      && Absent(f, ID_INITIATION_POINT) && Absent(f, ID_AMOUNT)
  {
    var f := ClosingFields(p, extra) + [Tlv(ID_CRC, crc)];
    FindAt(f, ID_MERCHANT_NAME, 1);
    FindAt(f, ID_MERCHANT_CITY, 2);
    FindAt(f, ID_ADDITIONAL_DATA, 3);
    FindAt(f, ID_CRC, 4);
  }

  lemma AmountLookup(p: Payload, rest: seq<Tlv>)
    requires Absent(rest, ID_AMOUNT)
    ensures Find(AmountFields(p) + rest, ID_AMOUNT) == p.amount
  {
    if p.amount != [] {
      FindAt(AmountFields(p) + rest, ID_AMOUNT, 0);
    } else {
      assert AmountFields(p) + rest == rest;
      FindAbsent(rest, ID_AMOUNT);
    }
  }

  lemma AmountAbsent(p: Payload, id: Text)
    requires id != ID_AMOUNT
    ensures Absent(AmountFields(p), id)
  {
  }

  lemma BodyLookup(p: Payload, account: Text, extra: Text, crc: Text)
    ensures var f := AllFields(p, account, extra, crc);
      && Find(f, ID_MERCHANT_ACCOUNT) == account
      && Find(f, ID_ADDITIONAL_DATA) == extra
      && Find(f, ID_CRC) == crc
      && Find(f, ID_MERCHANT_NAME) == p.merchantName
      && Find(f, ID_MERCHANT_CITY) == p.city
      && Find(f, ID_AMOUNT) == p.amount
      && Find(f, ID_INITIATION_POINT) == (if IsDynamic(p) then DYNAMIC else if p.omitInitiationPoint then [] else STATIC)
  {
    hide OpeningFields, AccountAndCurrency, AmountFields, ClosingFields, Find, Absent, Present;
    var a, b, c, d := OpeningFields(p), AccountAndCurrency(account), AmountFields(p), ClosingFields(p, extra);
    var e := [Tlv(ID_CRC, crc)];
    OpeningLookup(p);
    AccountPartLookup(account);
    ClosingLookup(p, extra, crc);
    AmountLookup(p, d + e);
    FindInParts(a, b, c, d, e, ID_MERCHANT_ACCOUNT);
    FindInParts(a, b, c, d, e, ID_AMOUNT);
    FindInParts(a, b, c, d, e, ID_INITIATION_POINT);
    AmountAbsent(p, ID_ADDITIONAL_DATA);
    FindInParts(a, b, c, d, e, ID_ADDITIONAL_DATA);
    AmountAbsent(p, ID_CRC);
    FindInParts(a, b, c, d, e, ID_CRC);
    AmountAbsent(p, ID_MERCHANT_NAME);
    FindInParts(a, b, c, d, e, ID_MERCHANT_NAME);
    AmountAbsent(p, ID_MERCHANT_CITY);
    FindInParts(a, b, c, d, e, ID_MERCHANT_CITY);
    AmountAbsent(p, ID_INITIATION_POINT);
    FindAbsent(d + e, ID_INITIATION_POINT);
  }

  // ---- the encoded text as a list of fields

  predicate Short(fields: seq<Tlv>) {
    forall i :: 0 <= i < |fields| ==> |fields[i].val| <= 99
  }

  lemma {:induction false} EncodesIffShort(fields: seq<Tlv>)
    ensures EncodeTlvs(fields).Ok? <==> Short(fields)
    decreases |fields|
  {
    if fields != [] {
      EncodesIffShort(fields[1..]);
      if Short(fields[1..]) && |fields[0].val| <= 99 {
        forall i | 0 <= i < |fields| ensures |fields[i].val| <= 99 {
          if i > 0 { assert fields[i] == fields[1..][i - 1]; }
        }
      }
      if Short(fields) {
        assert |fields[0].val| <= 99;
        forall i | 0 <= i < |fields[1..]| ensures |fields[1..][i].val| <= 99 {
          assert fields[1..][i] == fields[i + 1];
        }
      }
    }
  }

  lemma CrcFieldText(crc: Text)
    requires |crc| == 4
    ensures EncodeTlvs([Tlv(ID_CRC, crc)]) == Ok(CRC_TAG + crc)
  {
    var f := Tlv(ID_CRC, crc);
    assert [f][1..] == [];
    assert ID_CRC + TwoDigits(4) == CRC_TAG;
    PrefixedNothing(EncodeTlv(f), EncodeTlvs([]));
  }

  lemma AllFieldsIds(p: Payload, account: Text, extra: Text, crc: Text)
    ensures forall i :: 0 <= i < |AllFields(p, account, extra, crc)| ==> |AllFields(p, account, extra, crc)[i].id| == 2
    ensures forall i :: 0 <= i < |AccountFields(p)| ==> |AccountFields(p)[i].id| == 2
    ensures forall i :: 0 <= i < |ExtraFields(p)| ==> |ExtraFields(p)[i].id| == 2
  {
  }

  /** A successful encoding is the encoding of all its fields, check field
      included, and the two templates in it are encodings too. */
  lemma EncodedFields(p: Payload) returns (account: Text, extra: Text, body: Text)
    requires EncodePayload(p).Ok?
    ensures EncodePayload(p).value == Sealed(body)
    ensures EncodeTlvs(BodyFields(p, account, extra)) == Ok(body)
    ensures ParseTlvs(Sealed(body)) == Ok(AllFields(p, account, extra, CrcText(body)))
    ensures EncodeTlvs(AllFields(p, account, extra, CrcText(body))) == Ok(Sealed(body))
    ensures ParseTlvs(account) == Ok(AccountFields(p))
    ensures ParseTlvs(extra) == Ok(ExtraFields(p))
  {
    hide Validate, BodyFields, Crc16, Hex4, AccountFields, ExtraFields, EncodeTlvs, ParseTlvs;
    account := EncodeTlvs(AccountFields(p)).value;
    extra := EncodeTlvs(ExtraFields(p)).value;
    body := EncodeTlvs(BodyFields(p, account, extra)).value;
    var crc := CrcText(body);
    var fields := AllFields(p, account, extra, crc);
    CrcFieldText(crc);
    EncodeConcat(BodyFields(p, account, extra), [Tlv(ID_CRC, crc)]);
    assert body + (CRC_TAG + crc) == Sealed(body);
    EncodesIffShort(fields);
    EncodesIffShort(AccountFields(p));
    EncodesIffShort(ExtraFields(p));
    AllFieldsIds(p, account, extra, crc);
    ParseOfEncode(fields);
    ParseOfEncode(AccountFields(p));
    ParseOfEncode(ExtraFields(p));
  }

  // ---- where "6304" occurs last

  lemma TagPlace(body: Text, crc: Text)
    requires |crc| == 4
    ensures LastIndex(body + CRC_TAG + crc, CRC_TAG) == if crc == CRC_TAG then |body| + 4 else |body|
  {
    var code := body + CRC_TAG + crc;
    assert code[|body|..|body| + 4] == CRC_TAG;
    assert code[|body| + 4..|body| + 8] == crc;
    assert OccursAt(code, CRC_TAG, |body|);
    assert OccursAt(code, CRC_TAG, |body| + 4) <==> crc == CRC_TAG;
    forall j | |body| < j < |body| + 4 ensures !OccursAt(code, CRC_TAG, j) {
      assert code[j..j + 4][0] == CRC_TAG[j - |body|] != CRC_TAG[0];
    }
  }

  lemma TrimmedCode(code: Text, body: Text, crc: bv16)
    requires |body| > 0 && body[0] == 0x30 && code == body + CRC_TAG + Hex4(crc)
    ensures TrimSpace(code) == code
  {
    hide Nibble, TrimSpace;
    assert code[|code| - 1] == Hex4(crc)[3];
    TrimIdentity(code);
  }

  lemma {:induction false} FeedAllConcat(crc: bv16, s: Text, t: Text)
    ensures FeedAll(crc, s + t) == FeedAll(FeedAll(crc, s), t)
    decreases |s|
  {
    hide Feed;
    if s == [] {
      assert s + t == t;
    } else {
      assert (s + t)[1..] == s[1..] + t;
      FeedAllConcat(Feed(crc, s[0]), s[1..], t);
    }
  }

  lemma TagDigits()
    ensures Hex4(0x6304) == CRC_TAG
    ensures Hex4(0xFA09) != CRC_TAG
  {
    assert Hex4(0xFA09)[0] == 0x46;
  }

  /** A CRC field that reads "6304" moves the last tag onto itself, and then the
      recomputed CRC does not match. */
  lemma TagAsCrc(s: Text)
    requires Hex4(Crc16(s)) == CRC_TAG
    ensures Crc16(s + CRC_TAG) == 0xFA09
  {
    TagDigits();
    Hex4Injective(Crc16(s), 0x6304);
    FeedAllConcat(0xFFFF, s, CRC_TAG);
    FeedTag();
  }

  lemma FeedTag()
    ensures FeedAll(0x6304, CRC_TAG) == 0xFA09
  {
    var s := CRC_TAG;
    var c1, c2, c3 := Feed(0x6304, 0x36), Feed(Feed(0x6304, 0x36), 0x33), Feed(Feed(Feed(0x6304, 0x36), 0x33), 0x30);
    assert s[1..] == [0x33, 0x30, 0x34] && s[1..][1..] == [0x30, 0x34] && s[1..][1..][1..] == [0x34];
    assert s[1..][1..][1..][1..] == [];
    assert FeedAll(0x6304, s) == FeedAll(c1, s[1..]);
    assert FeedAll(c1, s[1..]) == FeedAll(c2, s[1..][1..]);
    assert FeedAll(c2, s[1..][1..]) == FeedAll(c3, s[1..][1..][1..]);
    assert FeedAll(c3, s[1..][1..][1..]) == Feed(c3, 0x34);
  }

  /** The check of a sealed text passes unless its CRC text is itself "6304". */
  lemma SealedMatches(body: Text)
    ensures CrcMatches(Sealed(body), CrcText(body)) <==> CrcText(body) != CRC_TAG
  {
    hide Crc16, Hex4;
    var crc := CrcText(body);
    var code := Sealed(body);
    TagPlace(body, crc);
    if crc == CRC_TAG {
      assert code[..|body| + 8] == body + CRC_TAG + CRC_TAG;
      TagAsCrc(body + CRC_TAG);
      TagDigits();
      Hex4Upper(0xFA09);
      Hex4Upper(Crc16(body + CRC_TAG));
    } else {
      assert code[..|body| + 4] == body + CRC_TAG;
    }
  }

  lemma BodyOpens(p: Payload, account: Text, extra: Text, body: Text)
    requires EncodeTlvs(BodyFields(p, account, extra)) == Ok(body)
    ensures |body| > 0 && body[0] == 0x30
  {
    var f := BodyFields(p, account, extra);
    assert f[0].id == ID_PAYLOAD_FORMAT;
    assert EncodeTlvs(f) == Prefixed(EncodeTlv(f[0]), EncodeTlvs(f[1..]));
  }

  /** Decoding an encoded payload gives the payload back, normalised, for every
      payload that encodes; the CRC is reported valid exactly when the CRC text
      is not "6304". */
  lemma RoundTrip(p: Payload)
    requires EncodePayload(p).Ok?
    ensures var code := EncodePayload(p).value;
      |code| >= 4 && Parse(code) == Ok(Normalised(p, code[|code| - 4..], code[|code| - 4..] != CRC_TAG))
  {
    var account, extra, body := EncodedFields(p);
    var code := Sealed(body);
    var crc := CrcText(body);
    BodyOpens(p, account, extra, body);
    hide BodyFields, AccountFields, Crc16, Hex4, Find, TrimSpace, CrcMatches, EncodeTlvs, ParseTlvs;
    TrimmedCode(code, body, Crc16(body + CRC_TAG));
    assert code[|code| - 4..] == crc;
    BodyLookup(p, account, extra, crc);
    assert p.key == [] || p.url == [];
    AccountLookup(p);
    FindAt(ExtraFields(p), ID_REFERENCE_LABEL, 0);
    Hex4Upper(Crc16(body + CRC_TAG));
    SealedMatches(body);
    assert STATIC != DYNAMIC;
  }

  /** A code that was just encoded validates, except in the "6304" case. */
  lemma EncodedValidates(p: Payload)
    requires EncodePayload(p).Ok?
    ensures var code := EncodePayload(p).value;
      ValidateCode(code) == None <==> code[|code| - 4..] != CRC_TAG
  {
    RoundTrip(p);
  }

  /** What encoding needs beyond validation: the two templates, the amount and
      the txid must fit the two-digit lengths. */
  predicate Fits(p: Payload) {
    && (if p.url != [] then 22 + |p.url| <= 99
        else 22 + |p.key| + (if p.description != [] then 4 + |p.description| else 0) <= 99)
    && |p.amount| <= 99
    && 4 + |TxIdOf(p)| <= 99
  }

  function TotalLength(fields: seq<Tlv>): nat {
    if fields == [] then 0 else |fields[0].id| + 2 + |fields[0].val| + TotalLength(fields[1..])
  }

  lemma {:induction false} EncodedLength(fields: seq<Tlv>)
    requires Short(fields)
    ensures EncodeTlvs(fields).Ok? && |EncodeTlvs(fields).value| == TotalLength(fields)
  {
    if fields != [] {
      assert forall i :: 0 <= i < |fields[1..]| ==> fields[1..][i] == fields[i + 1];
      EncodedLength(fields[1..]);
    }
  }

  lemma AccountLength(p: Payload)
    requires p.key == [] || p.url == []
    ensures TotalLength(AccountFields(p)) ==
      if p.url != [] then 22 + |p.url|
      else 22 + |p.key| + (if p.description != [] then 4 + |p.description| else 0)
  {
    var f := AccountFields(p);
    assert |f[0].id| == 2 && |f[0].val| == 14;
    if p.url != [] {
      assert f[1..] == [Tlv(ID_PIX_URL, p.url)];
      assert f[1..][1..] == [];
      assert TotalLength(f[1..][1..]) == 0;
      assert TotalLength(f[1..]) == 4 + |p.url|;
    } else if p.description != [] {
      assert f[1..] == [Tlv(ID_PIX_KEY, p.key), Tlv(ID_PIX_DESCRIPTION, p.description)];
      assert f[1..][1..] == [Tlv(ID_PIX_DESCRIPTION, p.description)];
      assert f[1..][1..][1..] == [];
      assert TotalLength(f[1..][1..]) == 4 + |p.description|;
      assert TotalLength(f[1..]) == 4 + |p.key| + 4 + |p.description|;
    } else {
      assert f[1..] == [Tlv(ID_PIX_KEY, p.key)];
      assert f[1..][1..] == [];
      assert TotalLength(f[1..][1..]) == 0;
      assert TotalLength(f[1..]) == 4 + |p.key|;
    }
  }

  lemma ShortConcat(f: seq<Tlv>, g: seq<Tlv>)
    ensures Short(f + g) <==> Short(f) && Short(g)
  {
    if Short(f + g) {
      forall i | 0 <= i < |f| ensures |f[i].val| <= 99 {
        assert f[i] == (f + g)[i];
      }
      forall i | 0 <= i < |g| ensures |g[i].val| <= 99 {
        assert g[i] == (f + g)[|f| + i];
      }
    }
  }

  lemma BodyShort(p: Payload, account: Text, extra: Text)
    requires |p.merchantName| <= 25 && |p.city| <= 15
    ensures Short(BodyFields(p, account, extra)) <==> |account| <= 99 && |extra| <= 99 && |p.amount| <= 99
  {
    var a, b, c, d := OpeningFields(p), AccountAndCurrency(account), AmountFields(p), ClosingFields(p, extra);
    ShortConcat(a + b + c, d);
    ShortConcat(a + b, c);
    ShortConcat(a, b);
    assert Short(a);
    assert Short(b) <==> |account| <= 99 by {
      assert b[0].val == account;
    }
    assert Short(c) <==> |p.amount| <= 99 by {
      if p.amount != [] { assert c[0].val == p.amount; }
    }
    assert Short(d) <==> |extra| <= 99 by {
      assert d[3].val == extra;
    }
  }

  lemma AccountShort(p: Payload)
    requires p.key == [] || p.url == []
    requires TotalLength(AccountFields(p)) <= 99
    ensures Short(AccountFields(p))
  {
    AccountLength(p);
  }

  lemma {:induction false} OnlyTooLong(fields: seq<Tlv>)
    ensures EncodeTlvs(fields).Ok? || EncodeTlvs(fields) == Err(ValueTooLong)
  {
    if fields != [] {
      OnlyTooLong(fields[1..]);
    }
  }

  /** After validation the one error left is a value that is too long. */
  lemma LengthErrors(p: Payload)
    ensures EncodePayload(p).Err? ==> EncodePayload(p).error == if Validate(p).Some? then Validate(p).value else ValueTooLong
  {
    hide Validate, AccountFields, ExtraFields, BodyFields, EncodeTlvs;
    OnlyTooLong(AccountFields(p));
    OnlyTooLong(ExtraFields(p));
    if EncodeTlvs(AccountFields(p)).Ok? && EncodeTlvs(ExtraFields(p)).Ok? {
      OnlyTooLong(BodyFields(p, EncodeTlvs(AccountFields(p)).value, EncodeTlvs(ExtraFields(p)).value));
    }
  }

  /** A valid payload encodes exactly when it fits. */
  lemma ValidEncodesIffFits(p: Payload)
    requires Validate(p) == None
    ensures EncodePayload(p).Ok? <==> Fits(p)
  {
    assert p.key == [] || p.url == [];
    assert |p.merchantName| <= 25 && |p.city| <= 15;
    hide Validate, AccountFields, BodyFields, EncodeTlvs;
    AccountLength(p);
    EncodesIffShort(AccountFields(p));
    EncodesIffShort(ExtraFields(p));
    var reference := ExtraFields(p);
    assert reference[0].val == TxIdOf(p) && reference[1..] == [];
    assert TotalLength(reference) == 4 + |TxIdOf(p)|;
    if EncodeTlvs(AccountFields(p)).Ok? {
      EncodedLength(AccountFields(p));
      if EncodeTlvs(reference).Ok? {
        EncodedLength(reference);
        var account, extra := EncodeTlvs(AccountFields(p)).value, EncodeTlvs(reference).value;
        BodyShort(p, account, extra);
        EncodesIffShort(BodyFields(p, account, extra));
      }
    }
    if Fits(p) {
      AccountShort(p);
      ReferenceEncodes(reference);
    }
  }

  /** Encoding succeeds exactly when the payload is in order and fits. It fails with the
      error whose condition holds, and for length only when everything else is right. */
  lemma EncodesIffFits(p: Payload)
    ensures EncodePayload(p).Ok? <==> Payable(p) && Fits(p)
    ensures EncodePayload(p) == Err(ValueTooLong) <==> Payable(p) && !Fits(p)
    ensures forall e :: e != ValueTooLong ==> (EncodePayload(p) == Err(e) <==> Refused(p, e))
  {
    hide Payable, Refused, Validate, Fits, AccountFields, ExtraFields, BodyFields, EncodeTlvs;
    ValidatesIff(p);
    LengthErrors(p);
    NotRefusedForLength(p);
    if Validate(p) == None {
      ValidEncodesIffFits(p);
    }
  }

  lemma NotRefusedForLength(p: Payload)
    ensures !Refused(p, ValueTooLong)
  {
  }

  lemma ReferenceEncodes(reference: seq<Tlv>)
    requires |reference| == 1 && |reference[0].val| <= 99
    ensures EncodeTlvs(reference).Ok?
  {
    EncodesIffShort(reference);
  }

  // ---- corrupted values

  /** The same fields with other values of the same lengths; field 63 is kept. */
  predicate SameFrames(f: seq<Tlv>, g: seq<Tlv>) {
    && |f| == |g| > 0
    && (forall i :: 0 <= i < |f| ==> f[i].id == g[i].id && |f[i].val| == |g[i].val|)
    && f[|f| - 1] == g[|f| - 1]
  }

  lemma {:induction false} TotalLengthSame(f: seq<Tlv>, g: seq<Tlv>)
    requires |f| == |g| && forall i :: 0 <= i < |f| ==> f[i].id == g[i].id && |f[i].val| == |g[i].val|
    ensures TotalLength(f) == TotalLength(g)
  {
    if f != [] {
      assert forall i :: 0 <= i < |f[1..]| ==> f[1..][i] == f[i + 1] && g[1..][i] == g[i + 1];
      TotalLengthSame(f[1..], g[1..]);
    }
  }

  /** The bytes before field 63. */
  function BodyText(fields: seq<Tlv>): Text
    requires |fields| > 0 && Short(fields)
  {
    EncodesIffShort(fields[..|fields| - 1]);
    EncodeTlvs(fields[..|fields| - 1]).value
  }

  lemma SameFramesEncode(f: seq<Tlv>, g: seq<Tlv>)
    requires SameFrames(f, g) && WellFramed(f)
    ensures WellFramed(g) && Short(f) && Short(g)
    ensures |BodyText(f)| == |BodyText(g)|
  {
    var n := |f| - 1;
    forall i | 0 <= i < |g| ensures |g[i].id| == 2 && |g[i].val| <= 99 {
      assert f[i].id == g[i].id && |f[i].val| == |g[i].val|;
    }
    TotalLengthSame(f[..n], g[..n]);
    EncodedLength(f[..n]);
    EncodedLength(g[..n]);
  }

  /** A code whose values were changed, every frame and the check field kept, is
      rejected whenever the CRC of the part before the check value changed. */
  lemma ChangedCrcRejected(p: Payload, fields: seq<Tlv>, changed: seq<Tlv>)
    requires EncodePayload(p).Ok? && CrcText(BeforeCrc(p)) != CRC_TAG
    requires ParseTlvs(EncodePayload(p).value) == Ok(fields)
    requires SameFrames(fields, changed) && WellFramed(changed) && Short(changed)
    requires Crc16(BodyText(changed) + CRC_TAG) != Crc16(BeforeCrc(p) + CRC_TAG)
    ensures EncodeTlvs(changed).Ok? && ValidateCode(EncodeTlvs(changed).value) != None
  {
    var account, extra, body := EncodedFields(p);
    SealedBefore(p, body);
    hide EncodePayload, ParseTlvs, EncodeTlvs, Crc16, Hex4, CrcText, BodyText, BodyFields, SameFrames, WellFramed, Short, Sealed, BeforeCrc, Parse, TrimSpace;
    var crc := CrcText(body);
    var code := ChangedCode(p, account, extra, body, fields, changed);
    ParseOfEncode(changed);
    ChangedCrcField(p, account, extra, crc, changed);
    WrongCrc(code, BodyText(changed), body, changed);
  }

  lemma SealedBefore(p: Payload, body: Text)
    requires EncodePayload(p).Ok? && EncodePayload(p).value == Sealed(body)
    ensures BeforeCrc(p) == body && Crc16(BeforeCrc(p) + CRC_TAG) == Crc16(body + CRC_TAG)
  {
    hide Crc16, Hex4, EncodePayload;
    assert Sealed(body)[..|Sealed(body)| - 8] == body;
  }

  /** A code that ends in the CRC of another body than its own does not validate. */
  lemma WrongCrc(code: Text, body2: Text, body: Text, fields: seq<Tlv>)
    requires code == body2 + CRC_TAG + CrcText(body) && |body2| > 0 && body2[0] == 0x30
    requires ParseTlvs(code) == Ok(fields) && Find(fields, ID_CRC) == CrcText(body)
    requires CrcText(body) != CRC_TAG && Crc16(body2 + CRC_TAG) != Crc16(body + CRC_TAG)
    ensures ValidateCode(code) != None
  {
    hide ParseTlvs, Crc16, Hex4, TrimSpace, Find, LastIndex, Parse;
    TrimmedCode(code, body2, Crc16(body + CRC_TAG));
    NoMatch(code, body2, Crc16(body + CRC_TAG));
    Unmatched(code, fields);
  }

  lemma NoMatch(code: Text, body2: Text, x: bv16)
    requires code == body2 + CRC_TAG + Hex4(x) && Hex4(x) != CRC_TAG && x != Crc16(body2 + CRC_TAG)
    ensures !CrcMatches(code, ToUpper(Hex4(x)))
  {
    hide Crc16, Hex4, ToUpper;
    TagPlace(body2, Hex4(x));
    assert code[..|body2| + 4] == body2 + CRC_TAG;
    Hex4Upper(Crc16(body2 + CRC_TAG));
    Hex4Upper(x);
    if Hex4(x) == Hex4(Crc16(body2 + CRC_TAG)) {
      Hex4Injective(x, Crc16(body2 + CRC_TAG));
    }
  }

  lemma Unmatched(code: Text, fields: seq<Tlv>)
    requires TrimSpace(code) == code && ParseTlvs(code) == Ok(fields) && !CrcMatches(code, ToUpper(Find(fields, ID_CRC)))
    ensures ValidateCode(code) != None
  {
    hide TrimSpace, ParseTlvs, CrcMatches, ToUpper, Find;
  }

  /** The part of the code before field 63. */
  function BeforeCrc(p: Payload): Text
    requires EncodePayload(p).Ok?
  {
    var code := EncodePayload(p).value;
    code[..|code| - 8]
  }

  lemma ChangedCode(p: Payload, account: Text, extra: Text, body: Text, fields: seq<Tlv>, changed: seq<Tlv>)
    returns (code: Text)
    requires fields == AllFields(p, account, extra, CrcText(body))
    requires SameFrames(fields, changed) && WellFramed(changed) && Short(changed)
    ensures EncodeTlvs(changed) == Ok(code) && code == BodyText(changed) + CRC_TAG + CrcText(body)
    ensures |BodyText(changed)| > 0 && BodyText(changed)[0] == 0x30
  {
    hide BodyFields, Crc16, Hex4;
    var n := |changed| - 1;
    var crc := CrcText(body);
    assert changed[n] == Tlv(ID_CRC, crc);
    assert changed == changed[..n] + [changed[n]];
    CrcFieldText(crc);
    EncodesIffShort(changed[..n]);
    EncodeConcat(changed[..n], [changed[n]]);
    code := EncodeTlvs(changed).value;
    assert code == BodyText(changed) + (CRC_TAG + crc);
    BodyFieldsOpen(p, account, extra);
    assert changed[0].id == fields[0].id == ID_PAYLOAD_FORMAT;
    assert changed[..n][0] == changed[0];
  }

  lemma BodyFieldsOpen(p: Payload, account: Text, extra: Text)
    ensures |BodyFields(p, account, extra)| > 0 && BodyFields(p, account, extra)[0].id == ID_PAYLOAD_FORMAT
  {
  }

  lemma ChangedCrcField(p: Payload, account: Text, extra: Text, crc: Text, changed: seq<Tlv>)
    requires SameFrames(AllFields(p, account, extra, crc), changed)
    ensures Find(changed, ID_CRC) == crc
  {
    var f := AllFields(p, account, extra, crc);
    var n := |f| - 1;
    BodyHasNoCrcField(p, account, extra);
    forall j | 0 <= j < n ensures changed[j].id != ID_CRC {
      assert f[j] == BodyFields(p, account, extra)[j];
      assert changed[j].id == f[j].id;
    }
    FindAt(changed, ID_CRC, n);
  }

  lemma BodyHasNoCrcField(p: Payload, account: Text, extra: Text)
    ensures Absent(BodyFields(p, account, extra), ID_CRC)
  {
    var a, b, c, d := OpeningFields(p), AccountAndCurrency(account), AmountFields(p), ClosingFields(p, extra);
    OpeningLookup(p);
    AccountPartLookup(account);
    AmountAbsent(p, ID_CRC);
    assert Absent(d, ID_CRC);
    hide OpeningFields, AccountAndCurrency, AmountFields, ClosingFields, Absent;
    AbsentConcat(a, b, ID_CRC);
    AbsentConcat(a + b, c, ID_CRC);
    AbsentConcat(a + b + c, d, ID_CRC);
  }

  lemma AbsentConcat(f: seq<Tlv>, g: seq<Tlv>, id: Text)
    requires Absent(f, id) && Absent(g, id)
    ensures Absent(f + g, id)
  {
  }

  /** Replacing the value of one field before field 63 changes one run of the
      text before it. */
  lemma ReplacedValue(fields: seq<Tlv>, j: nat, a: Text, u: Text, v: Text, c: Text)
    returns (before: Text, after: Text, changed: seq<Tlv>)
    requires WellFramed(fields) && j + 1 < |fields| && fields[j].val == a + u + c && |u| == |v|
    ensures changed == fields[j := Tlv(fields[j].id, a + v + c)]
    ensures SameFrames(fields, changed) && WellFramed(changed) && Short(fields) && Short(changed)
    ensures BodyText(fields) == before + u + after
    ensures BodyText(changed) == before + v + after
  {
    hide EncodeTlvs, TwoDigits, BodyText, WellFramed, SameFrames, Short;
    changed := Changed(fields, j, a, u, v, c);
    var x := fields[j];
    AroundField(fields, j);
    AroundField(changed, j);
    assert changed[..j] == fields[..j] && changed[j + 1..|fields| - 1] == fields[j + 1..|fields| - 1];
    var front, tail := EncodeTlvs(fields[..j]).value, EncodeTlvs(fields[j + 1..|fields| - 1]).value;
    before := front + x.id + TwoDigits(|x.val|) + a;
    after := c + tail;
    Regroup(front, x.id, TwoDigits(|x.val|), a, u, c, tail);
    Regroup(front, x.id, TwoDigits(|x.val|), a, v, c, tail);
  }

  lemma Changed(fields: seq<Tlv>, j: nat, a: Text, u: Text, v: Text, c: Text) returns (changed: seq<Tlv>)
    requires WellFramed(fields) && j + 1 < |fields| && fields[j].val == a + u + c && |u| == |v|
    ensures changed == fields[j := Tlv(fields[j].id, a + v + c)]
    ensures SameFrames(fields, changed) && WellFramed(changed) && Short(fields) && Short(changed)
  {
    changed := fields[j := Tlv(fields[j].id, a + v + c)];
    SameFramesEncode(fields, changed);
  }

  /** The text before the check field, around one of its fields. */
  lemma AroundField(fields: seq<Tlv>, j: nat)
    requires WellFramed(fields) && Short(fields) && j + 1 < |fields|
    ensures
      var f, x, g := fields[..j], fields[j], fields[j + 1..|fields| - 1];
      && EncodeTlvs(f).Ok? && EncodeTlvs(g).Ok? && |x.val| <= 99
      && BodyText(fields) == EncodeTlvs(f).value + (x.id + TwoDigits(|x.val|) + x.val) + EncodeTlvs(g).value
  {
    var n := |fields| - 1;
    var f, x, g := fields[..j], fields[j], fields[j + 1..n];
    assert fields[..n] == f + [x] + g;
    EncodesIffShort(f);
    EncodesIffShort(g);
    EncodeThree(f, x, g);
    hide EncodeTlvs, TwoDigits;
  }

  lemma Regroup(f: Text, id: Text, digits: Text, a: Text, u: Text, c: Text, tail: Text)
    ensures f + (id + digits + (a + u + c)) + tail == (f + id + digits + a) + u + (c + tail)
  {
  }

  lemma EncodeThree(f: seq<Tlv>, x: Tlv, g: seq<Tlv>)
    requires EncodeTlvs(f).Ok? && |x.val| <= 99 && EncodeTlvs(g).Ok?
    ensures EncodeTlvs(f + [x] + g) == Ok(EncodeTlvs(f).value + EncodeTlv(x) + EncodeTlvs(g).value)
  {
    assert [x][1..] == [];
    PrefixedNothing(EncodeTlv(x), EncodeTlvs([]));
    EncodeConcat(f, [x]);
    EncodeConcat(f + [x], g);
  }

  /** Corrupting one byte, or two adjacent bytes, inside the value of any field
      before field 63 of an encoded payload makes validation fail. */
  lemma CorruptedValueRejected(p: Payload, fields: seq<Tlv>, j: nat, a: Text, u: Text, v: Text, c: Text)
    requires EncodePayload(p).Ok?
    requires var code := EncodePayload(p).value; |code| >= 4 && code[|code| - 4..] != CRC_TAG
    requires ParseTlvs(EncodePayload(p).value) == Ok(fields)
    requires j + 1 < |fields| && fields[j].val == a + u + c
    requires |u| == |v| <= 2 && u != v
    ensures var changed := fields[j := Tlv(fields[j].id, a + v + c)];
      EncodeTlvs(changed).Ok? && ValidateCode(EncodeTlvs(changed).value) != None
  {
    hide ParseTlvs, EncodeTlvs, Crc16, ValidateCode;
    EncodeOfParse(EncodePayload(p).value);
    BodyOf(p, fields);
    var before, after, changed := ReplacedValue(fields, j, a, u, v, c);
    AdjacentBytesDetected(before, u, v, after + CRC_TAG);
    assert before + u + after + CRC_TAG == before + u + (after + CRC_TAG);
    assert before + v + after + CRC_TAG == before + v + (after + CRC_TAG);
    ChangedCrcRejected(p, fields, changed);
  }

  /** Flipping an odd number of bits, spread over the values before field 63 in
      any way, makes validation fail. */
  lemma OddFlipsRejected(p: Payload, fields: seq<Tlv>, changed: seq<Tlv>)
    requires EncodePayload(p).Ok?
    requires var code := EncodePayload(p).value; |code| >= 4 && code[|code| - 4..] != CRC_TAG
    requires ParseTlvs(EncodePayload(p).value) == Ok(fields)
    requires SameFrames(fields, changed) && WellFramed(changed) && Short(fields) && Short(changed)
    requires |BodyText(fields)| == |BodyText(changed)|
    requires Parity(Xor(MessageBits(BodyText(fields)), MessageBits(BodyText(changed))))
    ensures EncodeTlvs(changed).Ok? && ValidateCode(EncodeTlvs(changed).value) != None
  {
    hide ParseTlvs, EncodeTlvs, Crc16, ValidateCode;
    BodyOf(p, fields);
    var s, t := BodyText(fields), BodyText(changed);
    MessageBitsConcat(s, CRC_TAG);
    MessageBitsConcat(t, CRC_TAG);
    XorSuffix(MessageBits(s), MessageBits(t), MessageBits(CRC_TAG));
    ParityZeros(Xor(MessageBits(s), MessageBits(t)), |MessageBits(CRC_TAG)|);
    OddErrorsDetected(s + CRC_TAG, t + CRC_TAG);
    ChangedCrcRejected(p, fields, changed);
  }

  lemma XorSuffix(m: Bits, n: Bits, c: Bits)
    requires |m| == |n|
    ensures Xor(m + c, n + c) == Xor(m, n) + Zeros(|c|)
  {
  }

  lemma BodyOf(p: Payload, fields: seq<Tlv>)
    requires EncodePayload(p).Ok? && ParseTlvs(EncodePayload(p).value) == Ok(fields)
    ensures |fields| > 0 && WellFramed(fields) && Short(fields) && BodyText(fields) == BeforeCrc(p)
    ensures var code := EncodePayload(p).value; |code| >= 4 && code[|code| - 4..] == CrcText(BeforeCrc(p))
  {
    var account, extra, body := EncodedFields(p);
    EncodeOfParse(EncodePayload(p).value);
    hide BodyFields, Crc16, Hex4, EncodeTlvs, ParseTlvs, EncodePayload, CrcText, BeforeCrc, Sealed;
    SealedBefore(p, body);
    assert fields[..|fields| - 1] == BodyFields(p, account, extra);
    SealedEnd(body);
  }

  lemma SealedEnd(body: Text)
    ensures |Sealed(body)| >= 4 && Sealed(body)[|Sealed(body)| - 4..] == CrcText(body)
  {
    hide Crc16, Hex4;
  }
}
