/** A payload whose check field reads "6304", the text that marks where the check
    field starts. The code is right, and validation rejects it. */
module BrCodeExample {
  import opened Bytes
  import opened Crc
  import opened Wrappers
  import opened BrCode
  import opened BrCodeTheorems

  const EXAMPLE := Payload([0x69], [], [], [0x63], [0x46], [], [0x31], false, [], false, true)

  // The pieces of its encoding.
  const FORMAT: Text := [0x30, 0x30, 0x30, 0x32, 0x30, 0x31] // "000201"
  const ACCOUNT_HEADER: Text := [0x32, 0x36, 0x32, 0x33] // "2623"
  const GUI_HEADER: Text := [0x30, 0x30, 0x31, 0x34] // "0014"
  const KEY: Text := [0x30, 0x31, 0x30, 0x31, 0x69] // "0101i"
  const CATEGORY: Text := [0x35, 0x32, 0x30, 0x34, 0x30, 0x30, 0x30, 0x30] // "52040000"
  const CURRENCY: Text := [0x35, 0x33, 0x30, 0x33, 0x39, 0x38, 0x36] // "5303986"
  const COUNTRY: Text := [0x35, 0x38, 0x30, 0x32, 0x42, 0x52] // "5802BR"
  const NAME: Text := [0x35, 0x39, 0x30, 0x31, 0x63] // "5901c"
  const CITY: Text := [0x36, 0x30, 0x30, 0x31, 0x46] // "6001F"
  const EXTRA_HEADER: Text := [0x36, 0x32, 0x30, 0x35] // "6205"
  const REFERENCE: Text := [0x30, 0x35, 0x30, 0x31, 0x31] // "05011"

  function FeedFrom(crc: bv16, s: Text, i: nat): bv16
    requires i <= |s|
    decreases |s| - i
  {
    if i == |s| then crc else FeedFrom(Feed(crc, s[i]), s, i + 1)
  }

  lemma {:induction false} FeedFromIsFeedAll(crc: bv16, s: Text, i: nat)
    requires i <= |s|
    ensures FeedFrom(crc, s, i) == FeedAll(crc, s[i..])
    decreases |s| - i
  {
    hide Feed;
    if i < |s| {
      assert s[i..][1..] == s[i + 1..];
      FeedFromIsFeedAll(Feed(crc, s[i]), s, i + 1);
    }
  }

  lemma FormatTurns()
    ensures Feed(0xFFFF, 0x30) == 0xD7A3 && Feed(0xD7A3, 0x30) == 0x2EC9
    ensures Feed(0x2EC9, 0x30) == 0x3AFF && Feed(0x3AFF, 0x32) == 0x7E08
    ensures Feed(0x7E08, 0x30) == 0xA10A && Feed(0xA10A, 0x31) == 0x89B9
  {
  }

  lemma FeedFormat()
    ensures FeedAll(0xFFFF, FORMAT) == 0x89B9
  {
    hide Feed;
    FormatTurns();
    var s := FORMAT;
    assert FeedFrom(0xFFFF, s, 0) == FeedFrom(0xD7A3, s, 1);
    assert FeedFrom(0xD7A3, s, 1) == FeedFrom(0x2EC9, s, 2);
    assert FeedFrom(0x2EC9, s, 2) == FeedFrom(0x3AFF, s, 3);
    assert FeedFrom(0x3AFF, s, 3) == FeedFrom(0x7E08, s, 4);
    assert FeedFrom(0x7E08, s, 4) == FeedFrom(0xA10A, s, 5);
    assert FeedFrom(0xA10A, s, 5) == FeedFrom(0x89B9, s, 6);
    FeedFromIsFeedAll(0xFFFF, s, 0);
    assert s[0..] == s;
  }

  lemma AccountHeaderTurns()
    ensures Feed(0x89B9, 0x32) == 0xAFB0 && Feed(0xAFB0, 0x36) == 0xA290
    ensures Feed(0xA290, 0x32) == 0x13B9 && Feed(0x13B9, 0x33) == 0x9D62
  {
  }

  lemma FeedAccountHeader()
    ensures FeedAll(0x89B9, ACCOUNT_HEADER) == 0x9D62
  {
    hide Feed;
    AccountHeaderTurns();
    var s := ACCOUNT_HEADER;
    assert FeedFrom(0x89B9, s, 0) == FeedFrom(0xAFB0, s, 1);
    assert FeedFrom(0xAFB0, s, 1) == FeedFrom(0xA290, s, 2);
    assert FeedFrom(0xA290, s, 2) == FeedFrom(0x13B9, s, 3);
    assert FeedFrom(0x13B9, s, 3) == FeedFrom(0x9D62, s, 4);
    FeedFromIsFeedAll(0x89B9, s, 0);
    assert s[0..] == s;
  }

  lemma GuiHeaderTurns()
    ensures Feed(0x9D62, 0x30) == 0x0647 && Feed(0x0647, 0x30) == 0x1195
    ensures Feed(0x1195, 0x31) == 0xB162 && Feed(0xB162, 0x34) == 0xA32D
  {
  }

  lemma FeedGuiHeader()
    ensures FeedAll(0x9D62, GUI_HEADER) == 0xA32D
  {
    hide Feed;
    GuiHeaderTurns();
    var s := GUI_HEADER;
    assert FeedFrom(0x9D62, s, 0) == FeedFrom(0x0647, s, 1);
    assert FeedFrom(0x0647, s, 1) == FeedFrom(0x1195, s, 2);
    assert FeedFrom(0x1195, s, 2) == FeedFrom(0xB162, s, 3);
    assert FeedFrom(0xB162, s, 3) == FeedFrom(0xA32D, s, 4);
    FeedFromIsFeedAll(0x9D62, s, 0);
    assert s[0..] == s;
  }

  lemma PixGuiTurns()
    ensures Feed(0xA32D, 0x62) == 0xE46D && Feed(0xE46D, 0x72) == 0x8E7F
    ensures Feed(0x8E7F, 0x2E) == 0xCAEA && Feed(0xCAEA, 0x67) == 0x8E47
    ensures Feed(0x8E47, 0x6F) == 0xAA0F && Feed(0xAA0F, 0x76) == 0x05F1
    ensures Feed(0x05F1, 0x2E) == 0x6409 && Feed(0x6409, 0x62) == 0x69C6
    ensures Feed(0x69C6, 0x63) == 0x674A && Feed(0x674A, 0x62) == 0x1AA5
    ensures Feed(0x1AA5, 0x2E) == 0xD3D7 && Feed(0xD3D7, 0x70) == 0x5289
    ensures Feed(0x5289, 0x69) == 0x0E38 && Feed(0x0E38, 0x78) == 0x2651
  {
  }

  lemma FeedPixGui()
    ensures FeedAll(0xA32D, PIX_GUI) == 0x2651
  {
    hide Feed;
    PixGuiTurns();
    var s := PIX_GUI;
    assert FeedFrom(0xA32D, s, 0) == FeedFrom(0xE46D, s, 1);
    assert FeedFrom(0xE46D, s, 1) == FeedFrom(0x8E7F, s, 2);
    assert FeedFrom(0x8E7F, s, 2) == FeedFrom(0xCAEA, s, 3);
    assert FeedFrom(0xCAEA, s, 3) == FeedFrom(0x8E47, s, 4);
    assert FeedFrom(0x8E47, s, 4) == FeedFrom(0xAA0F, s, 5);
    assert FeedFrom(0xAA0F, s, 5) == FeedFrom(0x05F1, s, 6);
    assert FeedFrom(0x05F1, s, 6) == FeedFrom(0x6409, s, 7);
    assert FeedFrom(0x6409, s, 7) == FeedFrom(0x69C6, s, 8);
    assert FeedFrom(0x69C6, s, 8) == FeedFrom(0x674A, s, 9);
    assert FeedFrom(0x674A, s, 9) == FeedFrom(0x1AA5, s, 10);
    assert FeedFrom(0x1AA5, s, 10) == FeedFrom(0xD3D7, s, 11);
    assert FeedFrom(0xD3D7, s, 11) == FeedFrom(0x5289, s, 12);
    assert FeedFrom(0x5289, s, 12) == FeedFrom(0x0E38, s, 13);
    assert FeedFrom(0x0E38, s, 13) == FeedFrom(0x2651, s, 14);
    FeedFromIsFeedAll(0xA32D, s, 0);
    assert s[0..] == s;
  }

  lemma KeyTurns()
    ensures Feed(0x2651, 0x30) == 0x23F7 && Feed(0x23F7, 0x31) == 0xC573
    ensures Feed(0xC573, 0x30) == 0xCCBA && Feed(0xCCBA, 0x31) == 0x84B2
    ensures Feed(0x84B2, 0x69) == 0x9E83
  {
  }

  lemma FeedKey()
    ensures FeedAll(0x2651, KEY) == 0x9E83
  {
    hide Feed;
    KeyTurns();
    var s := KEY;
    assert FeedFrom(0x2651, s, 0) == FeedFrom(0x23F7, s, 1);
    assert FeedFrom(0x23F7, s, 1) == FeedFrom(0xC573, s, 2);
    assert FeedFrom(0xC573, s, 2) == FeedFrom(0xCCBA, s, 3);
    assert FeedFrom(0xCCBA, s, 3) == FeedFrom(0x84B2, s, 4);
    assert FeedFrom(0x84B2, s, 4) == FeedFrom(0x9E83, s, 5);
    FeedFromIsFeedAll(0x2651, s, 0);
    assert s[0..] == s;
  }

  lemma CategoryTurns()
    ensures Feed(0x9E83, 0x35) == 0x8781 && Feed(0x8781, 0x32) == 0x767E
    ensures Feed(0x767E, 0x30) == 0x5602 && Feed(0x5602, 0x34) == 0x4EE4
    ensures Feed(0x4EE4, 0x30) == 0x7B59 && Feed(0x7B59, 0x30) == 0xA0AF
    ensures Feed(0xA0AF, 0x30) == 0x2CB9 && Feed(0x2CB9, 0x30) == 0x6ABD
  {
  }

  lemma FeedCategory()
    ensures FeedAll(0x9E83, CATEGORY) == 0x6ABD
  {
    hide Feed;
    CategoryTurns();
    var s := CATEGORY;
    assert FeedFrom(0x9E83, s, 0) == FeedFrom(0x8781, s, 1);
    assert FeedFrom(0x8781, s, 1) == FeedFrom(0x767E, s, 2);
    assert FeedFrom(0x767E, s, 2) == FeedFrom(0x5602, s, 3);
    assert FeedFrom(0x5602, s, 3) == FeedFrom(0x4EE4, s, 4);
    assert FeedFrom(0x4EE4, s, 4) == FeedFrom(0x7B59, s, 5);
    assert FeedFrom(0x7B59, s, 5) == FeedFrom(0xA0AF, s, 6);
    assert FeedFrom(0xA0AF, s, 6) == FeedFrom(0x2CB9, s, 7);
    assert FeedFrom(0x2CB9, s, 7) == FeedFrom(0x6ABD, s, 8);
    FeedFromIsFeedAll(0x9E83, s, 0);
    assert s[0..] == s;
  }

  lemma CurrencyTurns()
    ensures Feed(0x6ABD, 0x35) == 0x161A && Feed(0x161A, 0x33) == 0x6EC7
    ensures Feed(0x6EC7, 0x30) == 0x7C3B && Feed(0x7C3B, 0x33) == 0x822B
    ensures Feed(0x822B, 0x39) == 0x3DB0 && Feed(0x3DB0, 0x38) == 0xE0A5
    ensures Feed(0xE0A5, 0x36) == 0x0EBB
  {
  }

  lemma FeedCurrency()
    ensures FeedAll(0x6ABD, CURRENCY) == 0x0EBB
  {
    hide Feed;
    CurrencyTurns();
    var s := CURRENCY;
    assert FeedFrom(0x6ABD, s, 0) == FeedFrom(0x161A, s, 1);
    assert FeedFrom(0x161A, s, 1) == FeedFrom(0x6EC7, s, 2);
    assert FeedFrom(0x6EC7, s, 2) == FeedFrom(0x7C3B, s, 3);
    assert FeedFrom(0x7C3B, s, 3) == FeedFrom(0x822B, s, 4);
    assert FeedFrom(0x822B, s, 4) == FeedFrom(0x3DB0, s, 5);
    assert FeedFrom(0x3DB0, s, 5) == FeedFrom(0xE0A5, s, 6);
    assert FeedFrom(0xE0A5, s, 6) == FeedFrom(0x0EBB, s, 7);
    FeedFromIsFeedAll(0x6ABD, s, 0);
    assert s[0..] == s;
  }

  lemma CountryTurns()
    ensures Feed(0x0EBB, 0x35) == 0x3C38 && Feed(0x3C38, 0x38) == 0x7884
    ensures Feed(0x7884, 0x30) == 0x4DCC && Feed(0x4DCC, 0x32) == 0x4378
    ensures Feed(0x4378, 0x42) == 0x6821 && Feed(0x6821, 0x52) == 0xB619
  {
  }

  lemma FeedCountry()
    ensures FeedAll(0x0EBB, COUNTRY) == 0xB619
  {
    hide Feed;
    CountryTurns();
    var s := COUNTRY;
    assert FeedFrom(0x0EBB, s, 0) == FeedFrom(0x3C38, s, 1);
    assert FeedFrom(0x3C38, s, 1) == FeedFrom(0x7884, s, 2);
    assert FeedFrom(0x7884, s, 2) == FeedFrom(0x4DCC, s, 3);
    assert FeedFrom(0x4DCC, s, 3) == FeedFrom(0x4378, s, 4);
    assert FeedFrom(0x4378, s, 4) == FeedFrom(0x6821, s, 5);
    assert FeedFrom(0x6821, s, 5) == FeedFrom(0xB619, s, 6);
    FeedFromIsFeedAll(0x0EBB, s, 0);
    assert s[0..] == s;
  }

  lemma NameTurns()
    ensures Feed(0xB619, 0x35) == 0xB8EB && Feed(0xB8EB, 0x39) == 0x6AA9
    ensures Feed(0x6AA9, 0x30) == 0x52BF && Feed(0x52BF, 0x31) == 0xE3C5
    ensures Feed(0xE3C5, 0x63) == 0x5488
  {
  }

  lemma FeedName()
    ensures FeedAll(0xB619, NAME) == 0x5488
  {
    hide Feed;
    NameTurns();
    var s := NAME;
    assert FeedFrom(0xB619, s, 0) == FeedFrom(0xB8EB, s, 1);
    assert FeedFrom(0xB8EB, s, 1) == FeedFrom(0x6AA9, s, 2);
    assert FeedFrom(0x6AA9, s, 2) == FeedFrom(0x52BF, s, 3);
    assert FeedFrom(0x52BF, s, 3) == FeedFrom(0xE3C5, s, 4);
    assert FeedFrom(0xE3C5, s, 4) == FeedFrom(0x5488, s, 5);
    FeedFromIsFeedAll(0xB619, s, 0);
    assert s[0..] == s;
  }

  lemma CityTurns()
    ensures Feed(0x5488, 0x36) == 0xC4E4 && Feed(0xC4E4, 0x30) == 0x4B9B
    ensures Feed(0x4B9B, 0x30) == 0x54FC && Feed(0x54FC, 0x31) == 0xC003
    ensures Feed(0xC003, 0x46) == 0xF24E
  {
  }

  lemma FeedCity()
    ensures FeedAll(0x5488, CITY) == 0xF24E
  {
    hide Feed;
    CityTurns();
    var s := CITY;
    assert FeedFrom(0x5488, s, 0) == FeedFrom(0xC4E4, s, 1);
    assert FeedFrom(0xC4E4, s, 1) == FeedFrom(0x4B9B, s, 2);
    assert FeedFrom(0x4B9B, s, 2) == FeedFrom(0x54FC, s, 3);
    assert FeedFrom(0x54FC, s, 3) == FeedFrom(0xC003, s, 4);
    assert FeedFrom(0xC003, s, 4) == FeedFrom(0xF24E, s, 5);
    FeedFromIsFeedAll(0x5488, s, 0);
    assert s[0..] == s;
  }

  lemma ExtraHeaderTurns()
    ensures Feed(0xF24E, 0x36) == 0xD7C8 && Feed(0xD7C8, 0x32) == 0x658B
    ensures Feed(0x658B, 0x30) == 0x8150 && Feed(0x8150, 0x35) == 0xB75F
  {
  }

  lemma FeedExtraHeader()
    ensures FeedAll(0xF24E, EXTRA_HEADER) == 0xB75F
  {
    hide Feed;
    ExtraHeaderTurns();
    var s := EXTRA_HEADER;
    assert FeedFrom(0xF24E, s, 0) == FeedFrom(0xD7C8, s, 1);
    assert FeedFrom(0xD7C8, s, 1) == FeedFrom(0x658B, s, 2);
    assert FeedFrom(0x658B, s, 2) == FeedFrom(0x8150, s, 3);
    assert FeedFrom(0x8150, s, 3) == FeedFrom(0xB75F, s, 4);
    FeedFromIsFeedAll(0xF24E, s, 0);
    assert s[0..] == s;
  }

  lemma ReferenceTurns()
    ensures Feed(0xB75F, 0x30) == 0xBE6F && Feed(0xBE6F, 0x35) == 0x4FE3
    ensures Feed(0x4FE3, 0x30) == 0x6C78 && Feed(0x6C78, 0x31) == 0xF358
    ensures Feed(0xF358, 0x31) == 0xA10E
  {
  }

  lemma FeedReference()
    ensures FeedAll(0xB75F, REFERENCE) == 0xA10E
  {
    hide Feed;
    ReferenceTurns();
    var s := REFERENCE;
    assert FeedFrom(0xB75F, s, 0) == FeedFrom(0xBE6F, s, 1);
    assert FeedFrom(0xBE6F, s, 1) == FeedFrom(0x4FE3, s, 2);
    assert FeedFrom(0x4FE3, s, 2) == FeedFrom(0x6C78, s, 3);
    assert FeedFrom(0x6C78, s, 3) == FeedFrom(0xF358, s, 4);
    assert FeedFrom(0xF358, s, 4) == FeedFrom(0xA10E, s, 5);
    FeedFromIsFeedAll(0xB75F, s, 0);
    assert s[0..] == s;
  }

  lemma CrcTagTurns()
    ensures Feed(0xA10E, 0x36) == 0xFD5E && Feed(0xFD5E, 0x33) == 0x6682
    ensures Feed(0x6682, 0x30) == 0xB833 && Feed(0xB833, 0x34) == 0x6304
  {
  }

  lemma FeedCrcTag()
    ensures FeedAll(0xA10E, CRC_TAG) == 0x6304
  {
    hide Feed;
    CrcTagTurns();
    var s := CRC_TAG;
    assert FeedFrom(0xA10E, s, 0) == FeedFrom(0xFD5E, s, 1);
    assert FeedFrom(0xFD5E, s, 1) == FeedFrom(0x6682, s, 2);
    assert FeedFrom(0x6682, s, 2) == FeedFrom(0xB833, s, 3);
    assert FeedFrom(0xB833, s, 3) == FeedFrom(0x6304, s, 4);
    FeedFromIsFeedAll(0xA10E, s, 0);
    assert s[0..] == s;
  }

  function Account(): Text {
    GUI_HEADER + PIX_GUI + KEY
  }

  function Body(): Text {
    FORMAT + (ACCOUNT_HEADER + Account()) + (CATEGORY + CURRENCY) + (COUNTRY + NAME) + (CITY + (EXTRA_HEADER + REFERENCE))
  }

  lemma ExampleCrc()
    ensures Crc16(Body() + CRC_TAG) == 0x6304
  {
    hide Feed, FeedAll;
    FeedFormat();
    FeedAccountHeader();
    FeedGuiHeader();
    FeedPixGui();
    FeedKey();
    FeedCategory();
    FeedCurrency();
    FeedCountry();
    FeedName();
    FeedCity();
    FeedExtraHeader();
    FeedReference();
    FeedCrcTag();
    var a := FORMAT + (ACCOUNT_HEADER + Account());
    var b := a + (CATEGORY + CURRENCY);
    var c := b + (COUNTRY + NAME);
    FeedAllConcat(0xFFFF, Body(), CRC_TAG);
    FeedAllConcat(0xFFFF, c, CITY + (EXTRA_HEADER + REFERENCE));
    FeedAllConcat(0xFFFF, b, COUNTRY + NAME);
    FeedAllConcat(0xFFFF, a, CATEGORY + CURRENCY);
    FeedAllConcat(0xFFFF, FORMAT, ACCOUNT_HEADER + Account());
    FeedAllConcat(0x89B9, ACCOUNT_HEADER, Account());
    FeedAllConcat(0x9D62, GUI_HEADER + PIX_GUI, KEY);
    FeedAllConcat(0x9D62, GUI_HEADER, PIX_GUI);
    FeedAllConcat(0x9E83, CATEGORY, CURRENCY);
    FeedAllConcat(0x0EBB, COUNTRY, NAME);
    FeedAllConcat(0x5488, CITY, EXTRA_HEADER + REFERENCE);
    FeedAllConcat(0xF24E, EXTRA_HEADER, REFERENCE);
  }

  lemma ExampleValid()
    ensures Validate(EXAMPLE) == None
  {
    TrimIdentity([0x69]);
    TrimIdentity([0x63]);
    TrimIdentity([0x46]);
    hide TrimSpace;
  }

  // ---- the fields, two by two

  lemma EncodePair(x: Tlv, y: Tlv, rest: seq<Tlv>)
    requires |x.val| <= 99 && |y.val| <= 99 && EncodeTlvs(rest).Ok?
    ensures EncodeTlvs([x, y] + rest) == Ok(EncodeTlv(x) + EncodeTlv(y) + EncodeTlvs(rest).value)
  {
    EncodesIffShort([]);
    EncodeThree([], x, [y]);
    assert [] + [x] + [y] == [x, y];
    assert [y] == [] + [y] + [];
    EncodeThree([], y, []);
    EncodeConcat([x, y], rest);
    assert EncodeTlvs([]) == Ok([]);
    hide EncodeTlvs, EncodeTlv;
    assert [] + EncodeTlv(x) == EncodeTlv(x);
    assert [] + EncodeTlv(y) + [] == EncodeTlv(y);
  }

  lemma LengthDigits()
    ensures TwoDigits(1) == [0x30, 0x31] && TwoDigits(2) == [0x30, 0x32] && TwoDigits(3) == [0x30, 0x33]
    ensures TwoDigits(4) == [0x30, 0x34] && TwoDigits(5) == [0x30, 0x35]
    ensures TwoDigits(14) == [0x31, 0x34] && TwoDigits(23) == [0x32, 0x33]
  {
  }

  lemma EncodedFormat()
    ensures EncodeTlv(Tlv(ID_PAYLOAD_FORMAT, FORMAT_01)) == FORMAT
  {
    LengthDigits();
    hide TwoDigits;
  }

  lemma EncodedAccount()
    ensures EncodeTlv(Tlv(ID_MERCHANT_ACCOUNT, Account())) == ACCOUNT_HEADER + Account()
  {
    LengthDigits();
    hide TwoDigits;
  }

  lemma EncodedGui()
    ensures EncodeTlv(Tlv(ID_GUI, PIX_GUI)) == GUI_HEADER + PIX_GUI
  {
    LengthDigits();
    hide TwoDigits;
  }

  lemma EncodedKey()
    ensures EncodeTlv(Tlv(ID_PIX_KEY, [0x69])) == KEY
  {
    LengthDigits();
    hide TwoDigits;
  }

  lemma EncodedCategory()
    ensures EncodeTlv(Tlv(ID_MERCHANT_CATEGORY, CATEGORY_NONE)) == CATEGORY
  {
    LengthDigits();
    hide TwoDigits;
  }

  lemma EncodedCurrency()
    ensures EncodeTlv(Tlv(ID_CURRENCY, CURRENCY_BRL)) == CURRENCY
  {
    LengthDigits();
    hide TwoDigits;
  }

  lemma EncodedCountry()
    ensures EncodeTlv(Tlv(ID_COUNTRY, COUNTRY_BR)) == COUNTRY
  {
    LengthDigits();
    hide TwoDigits;
  }

  lemma EncodedName()
    ensures EncodeTlv(Tlv(ID_MERCHANT_NAME, [0x63])) == NAME
  {
    LengthDigits();
    hide TwoDigits;
  }

  lemma EncodedCity()
    ensures EncodeTlv(Tlv(ID_MERCHANT_CITY, [0x46])) == CITY
  {
    LengthDigits();
    hide TwoDigits;
  }

  lemma EncodedExtra()
    ensures EncodeTlv(Tlv(ID_ADDITIONAL_DATA, REFERENCE)) == EXTRA_HEADER + REFERENCE
  {
    LengthDigits();
    hide TwoDigits;
  }

  lemma EncodedReference()
    ensures EncodeTlv(Tlv(ID_REFERENCE_LABEL, [0x31])) == REFERENCE
  {
    LengthDigits();
    hide TwoDigits;
  }

  lemma ExampleTemplates()
    ensures EncodeTlvs(AccountFields(EXAMPLE)) == Ok(Account())
    ensures EncodeTlvs(ExtraFields(EXAMPLE)) == Ok(REFERENCE)
  {
    EncodedGui();
    EncodedKey();
    EncodedReference();
    hide EncodeTlv;
    var a, b, c := Tlv(ID_GUI, PIX_GUI), Tlv(ID_PIX_KEY, [0x69]), Tlv(ID_REFERENCE_LABEL, [0x31]);
    assert EncodeTlvs([]) == Ok([]);
    EncodePair(a, b, []);
    assert AccountFields(EXAMPLE) == [a, b] + [];
    assert EncodeTlv(a) + EncodeTlv(b) + [] == EncodeTlv(a) + EncodeTlv(b);
    EncodeThree([], c, []);
    assert ExtraFields(EXAMPLE) == [] + [c] + [];
    assert [] + EncodeTlv(c) + [] == EncodeTlv(c);
  }

  lemma ExampleBody()
    ensures EncodeTlvs(BodyFields(EXAMPLE, Account(), REFERENCE)) == Ok(Body())
  {
    EncodedFormat();
    EncodedAccount();
    EncodedCategory();
    EncodedCurrency();
    EncodedCountry();
    EncodedName();
    EncodedCity();
    EncodedExtra();
    hide EncodeTlvs, EncodeTlv, Account;
    var a, b := Tlv(ID_PAYLOAD_FORMAT, FORMAT_01), Tlv(ID_MERCHANT_ACCOUNT, Account());
    var c, d := Tlv(ID_MERCHANT_CATEGORY, CATEGORY_NONE), Tlv(ID_CURRENCY, CURRENCY_BRL);
    var e, f := Tlv(ID_COUNTRY, COUNTRY_BR), Tlv(ID_MERCHANT_NAME, [0x63]);
    var g, h := Tlv(ID_MERCHANT_CITY, [0x46]), Tlv(ID_ADDITIONAL_DATA, REFERENCE);
    AccountSize();
    EncodeNothing();
    EncodePair(g, h, []);
    EncodePair(e, f, [g, h] + []);
    EncodePair(c, d, [e, f] + ([g, h] + []));
    EncodePair(a, b, [c, d] + ([e, f] + ([g, h] + [])));
    assert BodyFields(EXAMPLE, Account(), REFERENCE) == [a, b] + ([c, d] + ([e, f] + ([g, h] + [])));
    Regroup4(EncodeTlv(a), EncodeTlv(b), EncodeTlv(c), EncodeTlv(d), EncodeTlv(e), EncodeTlv(f), EncodeTlv(g), EncodeTlv(h));
  }

  lemma EncodeNothing()
    ensures EncodeTlvs([]) == Ok([])
  {
  }

  lemma AccountSize()
    ensures |Account()| == 23
  {
  }

  lemma Regroup4(a: Text, b: Text, c: Text, d: Text, e: Text, f: Text, g: Text, h: Text)
    ensures a + b + (c + d + (e + f + (g + h + []))) == a + b + (c + d) + (e + f) + (g + h)
  {
  }

  /** The example encodes, and validation of its own encoding fails. */
  lemma ExampleRejected()
    ensures EncodePayload(EXAMPLE).Ok?
    ensures ValidateCode(EncodePayload(EXAMPLE).value) == Some(CrcCheckFailed)
  {
    hide Validate, EncodeTlvs, BodyFields, AccountFields, ExtraFields, Crc16, ParseTlvs, Body, Account;
    ExampleValid();
    ExampleTemplates();
    ExampleBody();
    ExampleCrc();
    TagDigits();
    RoundTrip(EXAMPLE);
  }
}
