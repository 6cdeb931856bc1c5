/** The Pix BR Code: nested TLV fields with a trailing CRC
    (internal/brcode/brcode.go). */
module BrCode {
  import opened Bytes
  import opened Crc
  import opened Wrappers

  /** Why an operation was refused. */
  datatype Error =
    | TruncatedHeader
    | NonNumericLength
    | LengthExceedsPayload
    | ValueTooLong
    | KeyOrUrlRequired
    | KeyAndUrl
    | MerchantRequired
    | NameTooLong
    | CityTooLong
    | BadAmount
    | TooManyDecimals
    | NotPrintableAscii
    | CrcCheckFailed

  datatype Tlv = Tlv(id: Text, val: Text)

  const ID_PAYLOAD_FORMAT: Text := [0x30, 0x30]    // "00"
  const ID_INITIATION_POINT: Text := [0x30, 0x31]  // "01"
  const ID_MERCHANT_ACCOUNT: Text := [0x32, 0x36]  // "26"
  const ID_MERCHANT_CATEGORY: Text := [0x35, 0x32] // "52"
  const ID_CURRENCY: Text := [0x35, 0x33]          // "53"
  const ID_AMOUNT: Text := [0x35, 0x34]            // "54"
  const ID_COUNTRY: Text := [0x35, 0x38]           // "58"
  const ID_MERCHANT_NAME: Text := [0x35, 0x39]     // "59"
  const ID_MERCHANT_CITY: Text := [0x36, 0x30]     // "60"
  const ID_ADDITIONAL_DATA: Text := [0x36, 0x32]   // "62"
  const ID_CRC: Text := [0x36, 0x33]               // "63"

  const ID_GUI: Text := [0x30, 0x30]               // "00" under 26
  const ID_PIX_KEY: Text := [0x30, 0x31]           // "01" under 26
  const ID_PIX_DESCRIPTION: Text := [0x30, 0x32]   // "02" under 26
  const ID_PIX_URL: Text := [0x32, 0x35]           // "25" under 26
  const ID_REFERENCE_LABEL: Text := [0x30, 0x35]   // "05" under 62

  const PIX_GUI: Text :=  // "br.gov.bcb.pix"
    [0x62, 0x72, 0x2E, 0x67, 0x6F, 0x76, 0x2E, 0x62, 0x63, 0x62, 0x2E, 0x70, 0x69, 0x78]
  const STATIC: Text := [0x31, 0x31]               // "11"
  const DYNAMIC: Text := [0x31, 0x32]              // "12"
  const NO_TXID: Text := [0x2A, 0x2A, 0x2A]        // "***"
  const CRC_TAG: Text := [0x36, 0x33, 0x30, 0x34]  // "6304"
  const FORMAT_01: Text := [0x30, 0x31]            // "01"
  const CATEGORY_NONE: Text := [0x30, 0x30, 0x30, 0x30] // "0000"
  const CURRENCY_BRL: Text := [0x39, 0x38, 0x36]   // "986"
  const COUNTRY_BR: Text := [0x42, 0x52]           // "BR"

  datatype Payload = Payload(
    key: Text,
    url: Text,
    description: Text,
    merchantName: Text,
    city: Text,
    amount: Text,
    txid: Text,
    isDynamic: bool,
    crc: Text,
    crcValid: bool,
    omitInitiationPoint: bool)

  // ---- TLV framing

  function TwoDigits(n: nat): (s: Text)
    requires n <= 99
    ensures |s| == 2 && AllDigits(s)
  {
    [DigitByte(n / 10), DigitByte(n % 10)]
  }

  function LengthOf(s: Text): (n: nat)
    requires |s| == 2 && AllDigits(s)
    ensures n <= 99
  {
    10 * DigitValue(s[0]) + DigitValue(s[1])
  }

  /** What is already produced, followed by the result for the rest. */
  function Prefixed<T>(done: seq<T>, r: Result<seq<T>, Error>): Result<seq<T>, Error> {
    match r
    case Err(e) => Err(e)
    case Ok(rest) => Ok(done + rest)
  }

  lemma PrefixedTwice<T>(a: seq<T>, b: seq<T>, r: Result<seq<T>, Error>)
    ensures Prefixed(a, Prefixed(b, r)) == Prefixed(a + b, r)
  {
    if r.Ok? {
      assert a + (b + r.value) == a + b + r.value;
    }
  }

  lemma PrefixedNothing<T>(a: seq<T>, r: Result<seq<T>, Error>)
    ensures Prefixed([], r) == r
    ensures Prefixed(a, Ok([])) == Ok(a)
  {
    assert a + [] == a;
    assert r.Ok? ==> [] + r.value == r.value;
  }

  function ParseTlvs(s: Text): (r: Result<seq<Tlv>, Error>)
    decreases |s|
  {
    if s == [] then Ok([])
    else if |s| < 4 then Err(TruncatedHeader)
    else if !AllDigits(s[2..4]) then Err(NonNumericLength)
    else
      var n := LengthOf(s[2..4]);
      if 4 + n > |s| then Err(LengthExceedsPayload)
      else
        Prefixed([Tlv(s[..2], s[4..4 + n])], ParseTlvs(s[4 + n..]))
  }

  function EncodeTlvs(fields: seq<Tlv>): (r: Result<Text, Error>) {
    if fields == [] then Ok([])
    else if |fields[0].val| > 99 then Err(ValueTooLong)
    else
      Prefixed(EncodeTlv(fields[0]), EncodeTlvs(fields[1..]))
  }

  /** The id, the two digits of the length, and the value. */
  function EncodeTlv(f: Tlv): Text
    requires |f.val| <= 99
  {
    f.id + TwoDigits(|f.val|) + f.val
  }

  function Find(fields: seq<Tlv>, id: Text): Text {
    if fields == [] then []
    else if fields[0].id == id then fields[0].val
    else Find(fields[1..], id)
  }

  method ParseTLVs(s: Text) returns (r: Result<seq<Tlv>, Error>)
    ensures r == ParseTlvs(s)
  {
    hide AllDigits, LengthOf, Prefixed;
    var out: seq<Tlv> := [];
    var i := 0;
    PrefixedNothing(out, ParseTlvs(s));
    while i < |s|
      invariant 0 <= i <= |s|
      invariant ParseTlvs(s) == Prefixed(out, ParseTlvs(s[i..]))
    {
      ghost var suffix := s[i..];
      PrefixedError(out, ParseTlvs(suffix));
      if i + 4 > |s| {
        return Err(TruncatedHeader);
      }
      var id := s[i..i + 2];
      var lenField := s[i + 2..i + 4];
      assert id == suffix[..2] && lenField == suffix[2..4];
      if !AllDigits(lenField) {
        return Err(NonNumericLength);
      }
      var n := LengthOf(lenField);
      i := i + 4;
      if i + n > |s| {
        return Err(LengthExceedsPayload);
      }
      var field := Tlv(id, s[i..i + n]);
      assert s[i..i + n] == suffix[4..4 + n] && s[i + n..] == suffix[4 + n..];
      PrefixedTwice(out, [field], ParseTlvs(s[i + n..]));
      out := out + [field];
      i := i + n;
    }
    assert s[i..] == [];
    PrefixedNothing(out, ParseTlvs([]));
    return Ok(out);
  }

  lemma PrefixedError<T>(a: seq<T>, r: Result<seq<T>, Error>)
    ensures r.Err? ==> Prefixed(a, r) == Err(r.error)
  {
  }

  method EncodeTLVs(fields: seq<Tlv>) returns (r: Result<Text, Error>)
    ensures r == EncodeTlvs(fields)
  {
    hide TwoDigits, Prefixed;
    var b: Text := [];
    var i := 0;
    assert fields[0..] == fields;
    PrefixedNothing(b, EncodeTlvs(fields));
    while i < |fields|
      invariant 0 <= i <= |fields|
      invariant EncodeTlvs(fields) == Prefixed(b, EncodeTlvs(fields[i..]))
    {
      var f := fields[i];
      assert fields[i..][1..] == fields[i + 1..];
      PrefixedError(b, EncodeTlvs(fields[i..]));
      if |f.val| > 99 {
        return Err(ValueTooLong);
      }
      var chunk := f.id + TwoDigits(|f.val|) + f.val;
      assert chunk == EncodeTlv(f);
      PrefixedTwice(b, chunk, EncodeTlvs(fields[i + 1..]));
      b := b + chunk;
      i := i + 1;
    }
    assert fields[i..] == [];
    PrefixedNothing(b, EncodeTlvs([]));
    return Ok(b);
  }

  // ---- the two framings undo each other

  predicate WellFramed(fields: seq<Tlv>) {
    forall i :: 0 <= i < |fields| ==> |fields[i].id| == 2 && |fields[i].val| <= 99
  }

  lemma LengthOfTwoDigits(n: nat)
    requires n <= 99
    ensures LengthOf(TwoDigits(n)) == n
  {
  }

  lemma TwoDigitsOfLength(s: Text)
    requires |s| == 2 && AllDigits(s)
    ensures TwoDigits(LengthOf(s)) == s
  {
    DigitByteOfValue(s[0]);
    DigitByteOfValue(s[1]);
  }

  lemma Slices(id: Text, digits: Text, val: Text, rest: Text)
    requires |id| == 2 && |digits| == 2
    ensures var s := id + digits + val + rest;
      && s[..2] == id && s[2..4] == digits
      && s[4..4 + |val|] == val && s[4 + |val|..] == rest
  {
  }

  /** Whatever is encoded from two-byte ids and values of at most 99 bytes
      decodes to the same fields. */
  lemma {:induction false} ParseOfEncode(fields: seq<Tlv>)
    requires WellFramed(fields)
    ensures EncodeTlvs(fields).Ok?
    ensures ParseTlvs(EncodeTlvs(fields).value) == Ok(fields)
    decreases |fields|
  {
    hide AllDigits, LengthOf, TwoDigits;
    if fields != [] {
      var f := fields[0];
      ParseOfEncode(fields[1..]);
      var rest := EncodeTlvs(fields[1..]).value;
      LengthOfTwoDigits(|f.val|);
      Slices(f.id, TwoDigits(|f.val|), f.val, rest);
      assert [f] + fields[1..] == fields;
    }
  }

  lemma Cut(s: Text, n: nat)
    requires 4 + n <= |s|
    ensures s[..2] + s[2..4] + s[4..4 + n] + s[4 + n..] == s
  {
  }

  /** Every accepted string is the encoding of what it decodes to. */
  lemma {:induction false} EncodeOfParse(s: Text)
    requires ParseTlvs(s).Ok?
    ensures WellFramed(ParseTlvs(s).value)
    ensures EncodeTlvs(ParseTlvs(s).value) == Ok(s)
    decreases |s|
  {
    hide AllDigits, LengthOf, TwoDigits;
    if s != [] {
      var n := LengthOf(s[2..4]);
      EncodeOfParse(s[4 + n..]);
      TwoDigitsOfLength(s[2..4]);
      Cut(s, n);
      var fields, rest := ParseTlvs(s).value, ParseTlvs(s[4 + n..]).value;
      assert fields == [Tlv(s[..2], s[4..4 + n])] + rest && fields[1..] == rest;
    }
  }

  /** The strict reader accepts exactly the encodings of well-framed fields. */
  lemma AcceptedIffEncoding(s: Text)
    ensures ParseTlvs(s).Ok? <==> exists fields: seq<Tlv> :: WellFramed(fields) && EncodeTlvs(fields) == Ok(s)
  {
    if ParseTlvs(s).Ok? {
      EncodeOfParse(s);
    }
    if fields: seq<Tlv> :| WellFramed(fields) && EncodeTlvs(fields) == Ok(s) {
      ParseOfEncode(fields);
    }
  }

  lemma {:induction false} EncodeConcat(f: seq<Tlv>, g: seq<Tlv>)
    requires EncodeTlvs(f).Ok? && EncodeTlvs(g).Ok?
    ensures EncodeTlvs(f + g) == Ok(EncodeTlvs(f).value + EncodeTlvs(g).value)
    decreases |f|
  {
    if f == [] {
      assert f + g == g;
      PrefixedNothing([], EncodeTlvs(g));
    } else {
      assert (f + g)[1..] == f[1..] + g;
      EncodeConcat(f[1..], g);
      PrefixedTwice(EncodeTlv(f[0]), EncodeTlvs(f[1..]).value, EncodeTlvs(g));
    }
  }

  // ---- decoding

  /** "6304" occurs, and the text of field 63 is the CRC of everything up to and
      including its last occurrence. */
  predicate CrcMatches(code: Text, crcField: Text) {
    var idx := LastIndex(code, CRC_TAG);
    idx >= 0 && EqualFold(crcField, Hex4(Crc16(code[..idx + 4])))
  }

  function Parse(input: Text): (r: Result<Payload, Error>) {
    var code := TrimSpace(input);
    match ParseTlvs(code)
    case Err(e) => Err(e)
    case Ok(fields) =>
      var account := Find(fields, ID_MERCHANT_ACCOUNT);
      var extra := Find(fields, ID_ADDITIONAL_DATA);
      match ParseTlvs(account)
      case Err(e) => Err(e)
      case Ok(sub) =>
        match ParseTlvs(extra)
        case Err(e) => Err(e)
        case Ok(ad) =>
          var crc := ToUpper(Find(fields, ID_CRC));
          Ok(Payload(
            Find(sub, ID_PIX_KEY),
            Find(sub, ID_PIX_URL),
            Find(sub, ID_PIX_DESCRIPTION),
            Find(fields, ID_MERCHANT_NAME),
            Find(fields, ID_MERCHANT_CITY),
            Find(fields, ID_AMOUNT),
            Find(ad, ID_REFERENCE_LABEL),
            Find(fields, ID_INITIATION_POINT) == DYNAMIC,
            crc,
            CrcMatches(code, crc),
            false))
  }

  function ValidateCode(code: Text): (r: Option<Error>) {
    match Parse(code)
    case Err(e) => Some(e)
    case Ok(p) => if p.crcValid then None else Some(CrcCheckFailed)
  }

  // ---- encoding

  predicate IsPrintableAscii(s: Text) {
    forall i :: 0 <= i < |s| ==> 0x20 <= s[i] <= 0x7E
  }

  /** Where the first '.' is, or the length. */
  function DotAt(s: Text): (i: nat)
    ensures i <= |s| && (i < |s| ==> s[i] == 0x2E)
  {
    if s == [] || s[0] == 0x2E then 0 else 1 + DotAt(s[1..])
  }

  function ValidAmount(a: Text): (r: Option<Error>) {
    var dot := DotAt(a);
    var whole := a[..dot];
    var fraction := if dot < |a| then a[dot + 1..] else [];
    if !AllDigits(whole) || (dot < |a| && !AllDigits(fraction)) then Some(BadAmount)
    else if |fraction| > 2 then Some(TooManyDecimals)
    else None
  }

  function Validate(p: Payload): (r: Option<Error>) {
    if TrimSpace(p.key) == [] && TrimSpace(p.url) == [] then Some(KeyOrUrlRequired)
    else if p.key != [] && p.url != [] then Some(KeyAndUrl)
    else if TrimSpace(p.merchantName) == [] || TrimSpace(p.city) == [] then Some(MerchantRequired)
    else if |p.merchantName| > 25 then Some(NameTooLong)
    else if |p.city| > 15 then Some(CityTooLong)
    else if p.amount != [] && ValidAmount(p.amount).Some? then ValidAmount(p.amount)
    else if IsPrintableAscii(p.key) && IsPrintableAscii(p.url) && IsPrintableAscii(p.description)
            && IsPrintableAscii(p.merchantName) && IsPrintableAscii(p.city) && IsPrintableAscii(p.txid) then None
    else Some(NotPrintableAscii)
  }

  function AccountFields(p: Payload): seq<Tlv> {
    [Tlv(ID_GUI, PIX_GUI)] +
    if p.url != [] then [Tlv(ID_PIX_URL, p.url)]
    else [Tlv(ID_PIX_KEY, p.key)] + if p.description != [] then [Tlv(ID_PIX_DESCRIPTION, p.description)] else []
  }

  function TxIdOf(p: Payload): Text {
    if p.txid == [] then NO_TXID else p.txid
  }

  function ExtraFields(p: Payload): seq<Tlv> {
    [Tlv(ID_REFERENCE_LABEL, TxIdOf(p))]
  }

  predicate IsDynamic(p: Payload) {
    p.isDynamic || p.url != []
  }

  /** Payload format and, unless a static code omits it, the initiation point. */
  function OpeningFields(p: Payload): seq<Tlv> {
    [Tlv(ID_PAYLOAD_FORMAT, FORMAT_01)] +
    if IsDynamic(p) then [Tlv(ID_INITIATION_POINT, DYNAMIC)]
    else if !p.omitInitiationPoint then [Tlv(ID_INITIATION_POINT, STATIC)]
    else []
  }

  function AccountAndCurrency(account: Text): seq<Tlv> {
    [Tlv(ID_MERCHANT_ACCOUNT, account), Tlv(ID_MERCHANT_CATEGORY, CATEGORY_NONE), Tlv(ID_CURRENCY, CURRENCY_BRL)]
  }

  function AmountFields(p: Payload): seq<Tlv> {
    if p.amount != [] then [Tlv(ID_AMOUNT, p.amount)] else []
  }

  function ClosingFields(p: Payload, extra: Text): seq<Tlv> {
    [Tlv(ID_COUNTRY, COUNTRY_BR), Tlv(ID_MERCHANT_NAME, p.merchantName),
     Tlv(ID_MERCHANT_CITY, p.city), Tlv(ID_ADDITIONAL_DATA, extra)]
  }

  function BodyFields(p: Payload, account: Text, extra: Text): seq<Tlv> {
    OpeningFields(p) + AccountAndCurrency(account) + AmountFields(p) + ClosingFields(p, extra)
  }

  function Sealed(body: Text): Text {
    body + CRC_TAG + Hex4(Crc16(body + CRC_TAG))
  }

  function EncodePayload(p: Payload): (r: Result<Text, Error>) {
    match Validate(p)
    case Some(e) => Err(e)
    case None =>
      match EncodeTlvs(AccountFields(p))
      case Err(e) => Err(e)
      case Ok(account) =>
        match EncodeTlvs(ExtraFields(p))
        case Err(e) => Err(e)
        case Ok(extra) =>
          match EncodeTlvs(BodyFields(p, account, extra))
          case Err(e) => Err(e)
          case Ok(body) => Ok(Sealed(body))
  }

  method Encode(p: Payload) returns (r: Result<Text, Error>)
    ensures r == EncodePayload(p)
  {
    hide Validate, EncodeTlvs, Hex4, Crc16;
    var invalid := Validate(p);
    if invalid.Some? {
      return Err(invalid.value);
    }
    var ma := [Tlv(ID_GUI, PIX_GUI)];
    if p.url != [] {
      ma := ma + [Tlv(ID_PIX_URL, p.url)];
    } else {
      ma := ma + [Tlv(ID_PIX_KEY, p.key)];
      if p.description != [] {
        ma := ma + [Tlv(ID_PIX_DESCRIPTION, p.description)];
      }
    }
    assert ma == AccountFields(p);
    var account := EncodeTLVs(ma);
    if account.Err? {
      return Err(account.error);
    }
    var initiation := STATIC;
    if p.isDynamic || p.url != [] {
      initiation := DYNAMIC;
    }
    var txid := p.txid;
    if txid == [] {
      txid := NO_TXID;
    }
    var extra := EncodeTLVs([Tlv(ID_REFERENCE_LABEL, txid)]);
    if extra.Err? {
      return Err(extra.error);
    }
    var fields := [Tlv(ID_PAYLOAD_FORMAT, FORMAT_01)];
    if initiation == DYNAMIC || !p.omitInitiationPoint {
      fields := fields + [Tlv(ID_INITIATION_POINT, initiation)];
    }
    fields := fields +
      [Tlv(ID_MERCHANT_ACCOUNT, account.value), Tlv(ID_MERCHANT_CATEGORY, CATEGORY_NONE), Tlv(ID_CURRENCY, CURRENCY_BRL)];
    if p.amount != [] {
      fields := fields + [Tlv(ID_AMOUNT, p.amount)];
    }
    fields := fields +
      [Tlv(ID_COUNTRY, COUNTRY_BR), Tlv(ID_MERCHANT_NAME, p.merchantName),
       Tlv(ID_MERCHANT_CITY, p.city), Tlv(ID_ADDITIONAL_DATA, extra.value)];
    assert fields == BodyFields(p, account.value, extra.value);
    var body := EncodeTLVs(fields);
    if body.Err? {
      return Err(body.error);
    }
    var withTag := body.value + CRC_TAG;
    var crc := CRC16(withTag);
    return Ok(withTag + Hex4(crc));
  }
}
