/** Which payloads may be encoded, condition by condition, and which error each other
    payload meets first (internal/brcode/brcode.go). */
module BrCodeValidate {
  import opened Bytes
  import opened WhiteSpace
  import opened Wrappers
  import opened BrCode

  // ---- amounts

  predicate Digits(s: Text) {
    s != [] && forall i :: 0 <= i < |s| ==> 0x30 <= s[i] <= 0x39
  }

  const POINT: Text := [0x2E]

  /** Digits, and, if there is a point, digits after it. */
  ghost predicate IsDecimal(a: Text) {
    Digits(a) || exists whole, fraction :: Digits(whole) && Digits(fraction) && a == whole + POINT + fraction
  }

  /** Digits, and, if there is a point, one or two digits after it. */
  ghost predicate IsAmount(a: Text) {
    || Digits(a)
    || exists whole, fraction :: Digits(whole) && Digits(fraction) && |fraction| <= 2 && a == whole + POINT + fraction
  }

  lemma {:induction false} DotAfterDigits(whole: Text, rest: Text)
    requires forall i :: 0 <= i < |whole| ==> whole[i] != 0x2E
    ensures DotAt(whole) == |whole| && DotAt(whole + POINT + rest) == |whole|
    decreases |whole|
  {
    if whole == [] {
      assert whole + POINT + rest == POINT + rest;
    } else {
      DotAfterDigits(whole[1..], rest);
      assert (whole + POINT + rest)[1..] == whole[1..] + POINT + rest;
    }
  }

  lemma PlainAmount(a: Text)
    requires Digits(a)
    ensures ValidAmount(a) == None && !exists whole: Text, fraction: Text :: a == whole + POINT + fraction
  {
    DotAfterDigits(a, []);
    forall whole: Text, fraction: Text ensures a != whole + POINT + fraction {
      assert (whole + POINT + fraction)[|whole|] == 0x2E;
    }
  }

  lemma PointedAmount(whole: Text, fraction: Text)
    requires Digits(whole) && Digits(fraction)
    ensures ValidAmount(whole + POINT + fraction) == if |fraction| <= 2 then None else Some(TooManyDecimals)
  {
    var a := whole + POINT + fraction;
    DotAfterDigits(whole, fraction);
    assert a[..|whole|] == whole && a[|whole| + 1..] == fraction;
  }

  lemma PartsOfAmount(a: Text)
    requires ValidAmount(a) != Some(BadAmount)
    ensures Digits(a) || exists whole, fraction :: Digits(whole) && Digits(fraction) && a == whole + POINT + fraction
  {
    var dot := DotAt(a);
    if dot < |a| {
      assert a == a[..dot] + POINT + a[dot + 1..];
      assert Digits(a[..dot]) && Digits(a[dot + 1..]);
    } else {
      assert a[..dot] == a;
    }
  }

  /** An amount is accepted exactly when it is one, and has too many decimals exactly when
      it is a decimal and no amount. */
  lemma AmountAccepted(a: Text)
    ensures ValidAmount(a) == None <==> IsAmount(a)
    ensures ValidAmount(a) == Some(TooManyDecimals) <==> IsDecimal(a) && !IsAmount(a)
    ensures ValidAmount(a) == Some(BadAmount) <==> !IsDecimal(a)
  {
    hide ValidAmount, Digits;
    ThreeAnswers(a);
    if ValidAmount(a) != Some(BadAmount) {
      PartsOfAmount(a);
    }
    if Digits(a) {
      PlainAmount(a);
    } else {
      forall whole, fraction | Digits(whole) && Digits(fraction) && a == whole + POINT + fraction
        ensures ValidAmount(a) == if |fraction| <= 2 then None else Some(TooManyDecimals)
      {
        PointedAmount(whole, fraction);
      }
    }
  }

  lemma ThreeAnswers(a: Text)
    ensures ValidAmount(a) in {None, Some(BadAmount), Some(TooManyDecimals)}
  {
  }

  // ---- payloads

  /** One of key and URL, and that one not blank. */
  ghost predicate OneAddress(p: Payload) {
    (p.url == [] && !Blank(p.key)) || (p.key == [] && !Blank(p.url))
  }

  ghost predicate Named(p: Payload) {
    !Blank(p.merchantName) && !Blank(p.city)
  }

  predicate Printable(p: Payload) {
    forall s: Text, i: nat :: s in [p.key, p.url, p.description, p.merchantName, p.city, p.txid] && i < |s| ==>
      0x20 <= s[i] <= 0x7E
  }

  /** What a payload must be to be encoded, but for the two-digit lengths. */
  ghost predicate Payable(p: Payload) {
    && OneAddress(p) && Named(p) && |p.merchantName| <= 25 && |p.city| <= 15
    && (p.amount == [] || IsAmount(p.amount)) && Printable(p)
  }

  /** The condition of each error; the conditions exclude each other, so each error is
      met exactly when its condition holds. */
  ghost predicate Refused(p: Payload, e: Error) {
    var addressed := OneAddress(p);
    var named := addressed && Named(p);
    var sized := named && |p.merchantName| <= 25 && |p.city| <= 15;
    match e
    case KeyOrUrlRequired => Blank(p.key) && Blank(p.url)
    case KeyAndUrl => p.key != [] && p.url != [] && !(Blank(p.key) && Blank(p.url))
    case MerchantRequired => addressed && !Named(p)
    case NameTooLong => named && |p.merchantName| > 25
    case CityTooLong => named && |p.merchantName| <= 25 && |p.city| > 15
    case BadAmount => sized && p.amount != [] && !IsDecimal(p.amount)
    case TooManyDecimals => sized && IsDecimal(p.amount) && !IsAmount(p.amount)
    case NotPrintableAscii => sized && (p.amount == [] || IsAmount(p.amount)) && !Printable(p)
    case _ => false
  }

  lemma ValidatesIff(p: Payload)
    ensures Validate(p) == None <==> Payable(p)
    ensures forall e :: Validate(p) == Some(e) <==> Refused(p, e)
  {
    TrimmedToNothing(p.key);
    TrimmedToNothing(p.url);
    TrimmedToNothing(p.merchantName);
    TrimmedToNothing(p.city);
    AmountAccepted(p.amount);
    NoAmount();
    PrintableFields(p);
    NothingBlank();
    hide TrimSpace, Blank, ValidAmount, IsAmount, IsDecimal, IsPrintableAscii, Printable;
  }

  lemma NothingBlank()
    ensures Blank([])
  {
  }

  lemma NoAmount()
    ensures !IsDecimal([]) && !IsAmount([])
  {
  }

  lemma PrintableFields(p: Payload)
    ensures Printable(p) <==>
      IsPrintableAscii(p.key) && IsPrintableAscii(p.url) && IsPrintableAscii(p.description)
      && IsPrintableAscii(p.merchantName) && IsPrintableAscii(p.city) && IsPrintableAscii(p.txid)
  {
    var fields := [p.key, p.url, p.description, p.merchantName, p.city, p.txid];
    assert fields[0] in fields && fields[1] in fields && fields[2] in fields;
    assert fields[3] in fields && fields[4] in fields && fields[5] in fields;
  }

  // ---- pasted codes

  /** White space around a code changes nothing that is read from it. */
  lemma PastedCode(before: Text, code: Text, after: Text)
    requires Blank(before) && Blank(after)
    ensures Parse(before + code + after) == Parse(code) && ValidateCode(before + code + after) == ValidateCode(code)
  {
    TrimAround(before, code, after);
    hide TrimSpace, Blank, ParseTlvs, Find;
  }
}
