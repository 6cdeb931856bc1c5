/** Numbers and their decimal text. */
module Numerals {
  import opened Wrappers

  /** The largest value of Go's int. */
  const MAX_INT: int := 0x7FFF_FFFF_FFFF_FFFF

  predicate IsDigit(c: char) {
    '0' <= c <= '9'
  }

  predicate AllDigits(s: string) {
    s == [] || (IsDigit(s[0]) && AllDigits(s[1..]))
  }

  /** The number that a digit string continues after `n`. */
  function Decimal(n: int, s: string): (r: int)
    requires AllDigits(s)
    ensures n >= 0 ==> r >= 0
    decreases |s|
  {
    if s == [] then n else Decimal(10 * n + (s[0] as int - '0' as int), s[1..])
  }

  /** strconv.Atoi: an optional sign, at least one digit, and the range of int. */
  function Atoi(s: string): (r: Option<int>)
    ensures r.Some? ==> -MAX_INT - 1 <= r.value <= MAX_INT
  {
    var signed := s != [] && (s[0] == '-' || s[0] == '+');
    var digits := if signed then s[1..] else s;
    if digits == [] || !AllDigits(digits) then None
    else
      var n := if signed && s[0] == '-' then -Decimal(0, digits) else Decimal(0, digits);
      if -MAX_INT - 1 <= n <= MAX_INT then Some(n) else None
  }

  function DigitChar(n: int): (c: char)
    requires 0 <= n <= 9
    ensures IsDigit(c) && c as int - '0' as int == n
  {
    ('0' as int + n) as char
  }

  function NumberText(n: nat): (s: string)
    ensures s != []
  {
    if n < 10 then [DigitChar(n)] else NumberText(n / 10) + [DigitChar(n % 10)]
  }

  lemma {:induction false} DecimalAppend(n: int, s: string, c: char)
    requires AllDigits(s) && IsDigit(c)
    ensures AllDigits(s + [c]) && Decimal(n, s + [c]) == 10 * Decimal(n, s) + (c as int - '0' as int)
    decreases |s|
  {
    if s == [] {
      assert s + [c] == [c];
    } else {
      assert (s + [c])[1..] == s[1..] + [c];
      DecimalAppend(10 * n + (s[0] as int - '0' as int), s[1..], c);
    }
  }

  /** The number of its own text. */
  lemma {:induction false} DecimalOfNumber(n: nat)
    ensures AllDigits(NumberText(n)) && Decimal(0, NumberText(n)) == n
    ensures IsDigit(NumberText(n)[0])
  {
    if n < 10 {
      assert NumberText(n)[1..] == [];
    } else {
      DecimalOfNumber(n / 10);
      DecimalAppend(0, NumberText(n / 10), DigitChar(n % 10));
    }
  }

  lemma AtoiOfNumber(n: int)
    requires 0 <= n <= MAX_INT
    ensures Atoi(NumberText(n)) == Some(n)
  {
    DecimalOfNumber(n);
  }
}
