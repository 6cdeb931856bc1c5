/** An encoded payload, written out. */
module BrCodeLayout {
  import opened Bytes
  import opened Crc
  import opened Wrappers
  import opened BrCode
  import opened BrCodeValidate
  import opened BrCodeTheorems

  // The fixed parts, byte by byte.
  const FORMAT_FIELD: Text := [0x30, 0x30, 0x30, 0x32, 0x30, 0x31]  // "000201"
  const DYNAMIC_FIELD: Text := [0x30, 0x31, 0x30, 0x32, 0x31, 0x32]  // "010212"
  const STATIC_FIELD: Text := [0x30, 0x31, 0x30, 0x32, 0x31, 0x31]  // "010211"
  const CATEGORY_AND_CURRENCY: Text :=  // "520400005303986"
    [0x35, 0x32, 0x30, 0x34, 0x30, 0x30, 0x30, 0x30, 0x35, 0x33, 0x30, 0x33, 0x39, 0x38, 0x36]
  const COUNTRY_FIELD: Text := [0x35, 0x38, 0x30, 0x32, 0x42, 0x52]  // "5802BR"
  const GUI_FIELD: Text :=  // "0014br.gov.bcb.pix"
    [0x30, 0x30, 0x31, 0x34, 0x62, 0x72, 0x2E, 0x67, 0x6F, 0x76, 0x2E, 0x62, 0x63, 0x62, 0x2E, 0x70, 0x69, 0x78]
  const NO_REFERENCE: Text := [0x30, 0x33, 0x2A, 0x2A, 0x2A]  // "03***"
  const CHECK_TAG: Text := [0x36, 0x33, 0x30, 0x34]  // "6304"
  const AT_26: Text := [0x32, 0x36]  // "26"
  const AT_54: Text := [0x35, 0x34]  // "54"
  const AT_59: Text := [0x35, 0x39]  // "59"
  const AT_60: Text := [0x36, 0x30]  // "60"
  const AT_62: Text := [0x36, 0x32]  // "62"
  const AT_05: Text := [0x30, 0x35]  // "05"
  const AT_01: Text := [0x30, 0x31]  // "01"
  const AT_02: Text := [0x30, 0x32]  // "02"
  const AT_25: Text := [0x32, 0x35]  // "25"

  /** The length in two digits, then the value. */
  function Sized(val: Text): Text
    requires |val| <= 99
  {
    [(0x30 + |val| / 10) as byte, (0x30 + |val| % 10) as byte] + val
  }

  function Initiation(p: Payload): Text {
    if p.isDynamic || p.url != [] then DYNAMIC_FIELD
    else if p.omitInitiationPoint then []
    else STATIC_FIELD
  }

  /** With a URL the key is empty and the description is not written. */
  function Address(p: Payload): Text
    requires |p.url| <= 99 && (p.url == [] ==> |p.key| <= 99 && |p.description| <= 99)
  {
    GUI_FIELD +
    if p.url != [] then AT_25 + Sized(p.url)
    else AT_01 + Sized(p.key) + if p.description == [] then [] else AT_02 + Sized(p.description)
  }

  function Reference(p: Payload): Text
    requires |p.txid| <= 99
  {
    AT_05 + if p.txid == [] then NO_REFERENCE else Sized(p.txid)
  }

  /** The lengths that two digits hold. */
  predicate Bounded(p: Payload) {
    && |p.url| <= 99 && (p.url == [] ==> |p.key| <= 99 && |p.description| <= 99) && |Address(p)| <= 99
    && |p.txid| <= 99 && |Reference(p)| <= 99
    && |p.amount| <= 99 && |p.merchantName| <= 99 && |p.city| <= 99
  }

  /** Everything before the check text. */
  function Checked(p: Payload): Text
    requires Bounded(p)
  {
    FORMAT_FIELD + Initiation(p) + AT_26 + Sized(Address(p)) + CATEGORY_AND_CURRENCY +
    (if p.amount == [] then [] else AT_54 + Sized(p.amount)) +
    COUNTRY_FIELD + AT_59 + Sized(p.merchantName) + AT_60 + Sized(p.city) +
    AT_62 + Sized(Reference(p)) + CHECK_TAG
  }

  // ---- one field

  lemma DigitCast(n: nat)
    requires n <= 9
    ensures DigitByte(n) == (0x30 + n) as byte
  {
  }

  lemma FieldText(id: Text, val: Text)
    requires |val| <= 99
    ensures EncodeTlv(Tlv(id, val)) == id + Sized(val)
  {
    DigitCast(|val| / 10);
    DigitCast(|val| % 10);
    hide DigitByte;
    assert TwoDigits(|val|) == [(0x30 + |val| / 10) as byte, (0x30 + |val| % 10) as byte];
    assert id + TwoDigits(|val|) + val == id + (TwoDigits(|val|) + val);
  }

  // ---- the fields that never change, as they are written

  lemma FormatText()
    ensures EncodeTlv(Tlv(ID_PAYLOAD_FORMAT, FORMAT_01)) == FORMAT_FIELD
  {
  }

  lemma InitiationTexts()
    ensures EncodeTlv(Tlv(ID_INITIATION_POINT, STATIC)) == STATIC_FIELD
    ensures EncodeTlv(Tlv(ID_INITIATION_POINT, DYNAMIC)) == DYNAMIC_FIELD
  {
  }

  lemma CurrencyText()
    ensures EncodeTlv(Tlv(ID_MERCHANT_CATEGORY, CATEGORY_NONE)) + EncodeTlv(Tlv(ID_CURRENCY, CURRENCY_BRL)) == CATEGORY_AND_CURRENCY
  {
  }

  lemma CountryText()
    ensures EncodeTlv(Tlv(ID_COUNTRY, COUNTRY_BR)) == COUNTRY_FIELD
    ensures CRC_TAG == CHECK_TAG
  {
  }

  lemma GuiText()
    ensures EncodeTlv(Tlv(ID_GUI, PIX_GUI)) == GUI_FIELD
  {
  }

  lemma NoReferenceText()
    ensures EncodeTlv(Tlv(ID_REFERENCE_LABEL, NO_TXID)) == AT_05 + NO_REFERENCE
  {
  }

  lemma AccountIds()
    ensures ID_PIX_KEY == AT_01 && ID_PIX_DESCRIPTION == AT_02 && ID_PIX_URL == AT_25
  {
  }

  lemma BodyIds()
    ensures ID_MERCHANT_ACCOUNT == AT_26 && ID_AMOUNT == AT_54 && ID_MERCHANT_NAME == AT_59
  {
  }

  lemma ClosingIds()
    ensures ID_MERCHANT_CITY == AT_60 && ID_ADDITIONAL_DATA == AT_62 && ID_REFERENCE_LABEL == AT_05
  {
  }

  // ---- lists of fields

  lemma Consed(f: Tlv, fields: seq<Tlv>)
    requires |f.val| <= 99 && EncodeTlvs(fields).Ok?
    ensures EncodeTlvs([f] + fields) == Ok(EncodeTlv(f) + EncodeTlvs(fields).value)
  {
    hide EncodeTlv;
    assert ([f] + fields)[1..] == fields;
  }

  lemma OneField(f: Tlv)
    requires |f.val| <= 99
    ensures EncodeTlvs([f]) == Ok(EncodeTlv(f))
  {
    hide EncodeTlv;
    assert [f][1..] == [];
    assert EncodeTlv(f) + [] == EncodeTlv(f);
  }

  lemma AddressText(p: Payload)
    requires |p.url| <= 99 && (p.url == [] ==> |p.key| <= 99 && |p.description| <= 99)
    ensures EncodeTlvs(AccountFields(p)) == Ok(Address(p))
  {
    hide EncodeTlv, EncodeTlvs, Sized;
    GuiText();
    AccountIds();
    var gui, key, url, description :=
      Tlv(ID_GUI, PIX_GUI), Tlv(ID_PIX_KEY, p.key), Tlv(ID_PIX_URL, p.url), Tlv(ID_PIX_DESCRIPTION, p.description);
    if p.url != [] {
      FieldText(ID_PIX_URL, p.url);
      OneField(url);
      Consed(gui, [url]);
    } else {
      FieldText(ID_PIX_KEY, p.key);
      FieldText(ID_PIX_DESCRIPTION, p.description);
      OneField(key);
      OneField(description);
      Consed(key, [description]);
      Consed(gui, [key]);
      Consed(gui, [key] + [description]);
      assert [key] + [] == [key] && AT_01 + Sized(p.key) + [] == AT_01 + Sized(p.key);
    }
  }

  lemma ReferenceText(p: Payload)
    requires |p.txid| <= 99
    ensures EncodeTlvs(ExtraFields(p)) == Ok(Reference(p))
  {
    hide EncodeTlv, EncodeTlvs, Sized;
    NoReferenceText();
    ClosingIds();
    OneField(Tlv(ID_REFERENCE_LABEL, TxIdOf(p)));
    FieldText(ID_REFERENCE_LABEL, p.txid);
  }

  lemma OpeningText(p: Payload)
    ensures EncodeTlvs(OpeningFields(p)) == Ok(FORMAT_FIELD + Initiation(p))
  {
    hide EncodeTlv, EncodeTlvs;
    FormatText();
    InitiationTexts();
    var format := Tlv(ID_PAYLOAD_FORMAT, FORMAT_01);
    OneField(format);
    assert [format] + [] == [format] && FORMAT_FIELD + [] == FORMAT_FIELD;
    if IsDynamic(p) {
      OneField(Tlv(ID_INITIATION_POINT, DYNAMIC));
      Consed(format, [Tlv(ID_INITIATION_POINT, DYNAMIC)]);
    } else if !p.omitInitiationPoint {
      OneField(Tlv(ID_INITIATION_POINT, STATIC));
      Consed(format, [Tlv(ID_INITIATION_POINT, STATIC)]);
    }
  }

  lemma AccountText(account: Text)
    requires |account| <= 99
    ensures EncodeTlvs(AccountAndCurrency(account)) == Ok(AT_26 + Sized(account) + CATEGORY_AND_CURRENCY)
  {
    hide EncodeTlv, EncodeTlvs, Sized;
    CurrencyText();
    BodyIds();
    var a, category, currency :=
      Tlv(ID_MERCHANT_ACCOUNT, account), Tlv(ID_MERCHANT_CATEGORY, CATEGORY_NONE), Tlv(ID_CURRENCY, CURRENCY_BRL);
    FieldText(ID_MERCHANT_ACCOUNT, account);
    OneField(currency);
    Consed(category, [currency]);
    Consed(a, [category] + [currency]);
    assert [a] + ([category] + [currency]) == [a, category, currency];
  }

  lemma AmountText(p: Payload)
    requires |p.amount| <= 99
    ensures EncodeTlvs(AmountFields(p)) == Ok(if p.amount == [] then [] else AT_54 + Sized(p.amount))
  {
    hide EncodeTlv, Sized;
    BodyIds();
    FieldText(ID_AMOUNT, p.amount);
    OneField(Tlv(ID_AMOUNT, p.amount));
  }

  lemma Flat(a: Text, b: Text, c: Text, d: Text, e: Text, f: Text, g: Text)
    ensures a + (b + c + (d + e + (f + g))) == a + b + c + d + e + f + g
  {
  }

  lemma After(x: Text, a: Text, b: Text, c: Text, d: Text, e: Text, f: Text, g: Text)
    ensures x + (a + b + c + d + e + f + g) == x + a + b + c + d + e + f + g
  {
  }

  lemma ClosingText(p: Payload, extra: Text)
    requires |p.merchantName| <= 99 && |p.city| <= 99 && |extra| <= 99
    ensures EncodeTlvs(ClosingFields(p, extra)) ==
      Ok(COUNTRY_FIELD + AT_59 + Sized(p.merchantName) + AT_60 + Sized(p.city) + AT_62 + Sized(extra))
  {
    hide EncodeTlv, EncodeTlvs, Sized;
    CountryText();
    BodyIds();
    ClosingIds();
    var country, name, city, data :=
      Tlv(ID_COUNTRY, COUNTRY_BR), Tlv(ID_MERCHANT_NAME, p.merchantName), Tlv(ID_MERCHANT_CITY, p.city), Tlv(ID_ADDITIONAL_DATA, extra);
    FieldText(ID_MERCHANT_NAME, p.merchantName);
    FieldText(ID_MERCHANT_CITY, p.city);
    FieldText(ID_ADDITIONAL_DATA, extra);
    OneField(data);
    Consed(city, [data]);
    Consed(name, [city] + [data]);
    Consed(country, [name] + ([city] + [data]));
    assert [country] + ([name] + ([city] + [data])) == [country, name, city, data];
    Flat(COUNTRY_FIELD, AT_59, Sized(p.merchantName), AT_60, Sized(p.city), AT_62, Sized(extra));
  }

  /** The text of a payload that encodes: every byte of it is one of the payload, a
      length, a check digit or a constant written here. */
  lemma EncodedText(p: Payload)
    requires EncodePayload(p).Ok?
    ensures Bounded(p) && EncodePayload(p).value == Checked(p) + Hex4(Crc16(Checked(p)))
  {
    hide Validate, AccountFields, ExtraFields, BodyFields, EncodeTlvs, Sized, Address, Reference, Initiation, Crc16, Hex4;
    FitsIsBounded(p);
    AddressText(p);
    ReferenceText(p);
    CountryText();
    BodyText(p, Address(p), Reference(p));
  }

  lemma BodyText(p: Payload, account: Text, extra: Text)
    requires |account| <= 99 && |extra| <= 99 && |p.amount| <= 99 && |p.merchantName| <= 99 && |p.city| <= 99
    ensures EncodeTlvs(BodyFields(p, account, extra)) == Ok(
      FORMAT_FIELD + Initiation(p) + AT_26 + Sized(account) + CATEGORY_AND_CURRENCY +
      (if p.amount == [] then [] else AT_54 + Sized(p.amount)) +
      COUNTRY_FIELD + AT_59 + Sized(p.merchantName) + AT_60 + Sized(p.city) + AT_62 + Sized(extra))
  {
    OpeningText(p);
    AccountText(account);
    AmountText(p);
    ClosingText(p, extra);
    hide OpeningFields, AccountAndCurrency, AmountFields, ClosingFields, EncodeTlvs, Sized, Initiation;
    FourTexts(OpeningFields(p), AccountAndCurrency(account), AmountFields(p), ClosingFields(p, extra));
    Straight(FORMAT_FIELD, Initiation(p), AT_26, Sized(account), CATEGORY_AND_CURRENCY, if p.amount == [] then [] else AT_54 + Sized(p.amount));
    After(FORMAT_FIELD + Initiation(p) + AT_26 + Sized(account) + CATEGORY_AND_CURRENCY
          + (if p.amount == [] then [] else AT_54 + Sized(p.amount)),
      COUNTRY_FIELD, AT_59, Sized(p.merchantName), AT_60, Sized(p.city), AT_62, Sized(extra));
  }

  lemma FourTexts(a: seq<Tlv>, b: seq<Tlv>, c: seq<Tlv>, d: seq<Tlv>)
    requires EncodeTlvs(a).Ok? && EncodeTlvs(b).Ok? && EncodeTlvs(c).Ok? && EncodeTlvs(d).Ok?
    ensures EncodeTlvs(a + b + c + d) ==
      Ok(EncodeTlvs(a).value + EncodeTlvs(b).value + EncodeTlvs(c).value + EncodeTlvs(d).value)
  {
    hide *;
    EncodeConcat(a, b);
    EncodeConcat(a + b, c);
    EncodeConcat(a + b + c, d);
  }

  lemma Straight(a: Text, b: Text, c: Text, d: Text, e: Text, f: Text)
    ensures (a + b) + (c + d + e) + f == a + b + c + d + e + f
  {
  }

  lemma FitsIsBounded(p: Payload)
    requires EncodePayload(p).Ok?
    ensures Bounded(p)
  {
    hide Validate, Refused, AccountFields, ExtraFields, EncodeTlvs, Sized, Payable;
    EncodesIffFits(p);
    LengthsBounded(p);
    SizedLengths(p);
  }

  lemma LengthsBounded(p: Payload)
    requires Payable(p)
    ensures |p.merchantName| <= 25 && |p.city| <= 15 && (p.url == [] || p.key == [])
  {
    hide Printable, IsAmount, Named;
  }

  lemma SizedLengths(p: Payload)
    requires Fits(p) && (p.url == [] || p.key == [])
    ensures |p.url| <= 99 && (p.url == [] ==> |p.key| <= 99 && |p.description| <= 99) && |p.txid| <= 99
    ensures |Address(p)| <= 99 && |Reference(p)| <= 99
  {
    assert |GUI_FIELD| == 18;
  }
}
