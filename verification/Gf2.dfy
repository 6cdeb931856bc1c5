/** Polynomials over GF(2), written highest power first, and their remainder
    modulo the generator x^16 + x^12 + x^5 + 1 that the Pix check field uses. */
module Gf2 {
  type Bits = seq<bool>

  function Zeros(n: nat): (r: Bits)
    ensures |r| == n
  {
    seq(n, _ => false)
  }

  function Xor(a: Bits, b: Bits): (r: Bits)
    requires |a| == |b|
    ensures |r| == |a|
  {
    seq(|a|, i requires 0 <= i < |a| => a[i] != b[i])
  }

  /** Coefficient of x^(16-k) in the generator. */
  predicate Generator(k: int) {
    k == 0 || k == 4 || k == 11 || k == 16
  }

  /** The product of `q` and the generator; a polynomial of |q| + 16 coefficients. */
  function TimesGenerator(q: Bits): (r: Bits)
    ensures |r| == |q| + 16
  {
    if q == [] then Zeros(16)
    else
      var rest := TimesGenerator(q[1..]);
      seq(|q| + 16, i requires 0 <= i < |q| + 16 =>
        (q[0] && Generator(i)) != (0 < i && rest[i - 1]))
  }

  /** d = q * G + r with r of degree below 16. */
  ghost predicate Divides(d: Bits, q: Bits, r: Bits) {
    && |r| == 16
    && |d| == |q| + 16
    && d == Xor(TimesGenerator(q), Zeros(|q|) + r)
  }

  ghost predicate IsRemainder(d: Bits, r: Bits) {
    exists q: Bits :: Divides(d, q, r)
  }

  /** One step of long division: cancel the leading coefficient and drop it. */
  function Reduce(d: Bits): (r: Bits)
    requires |d| > 16
    ensures |r| == |d| - 1
  {
    seq(|d| - 1, i requires 0 <= i < |d| - 1 => d[i + 1] != (d[0] && Generator(i + 1)))
  }

  function LongDivision(d: Bits): (r: Bits)
    requires |d| >= 16
    ensures |r| == 16
    decreases |d|
  {
    if |d| == 16 then d else LongDivision(Reduce(d))
  }

  /** A division of `d` has the leading coefficient of `d` as its first quotient
      coefficient, and its tail is a division of the reduced dividend. */
  lemma {:induction false} DividesStep(d: Bits, q: Bits, r: Bits)
    requires |r| == 16 && |d| == |q| + 16 && |q| > 0
    ensures Divides(d, q, r) <==> q[0] == d[0] && Divides(Reduce(d), q[1..], r)
  {
    var t := TimesGenerator(q[1..]);
    var whole := Xor(TimesGenerator(q), Zeros(|q|) + r);
    var tail := Xor(t, Zeros(|q| - 1) + r);
    assert whole[0] == q[0];
    forall i | 0 <= i < |d| - 1
      ensures whole[i + 1] == ((q[0] && Generator(i + 1)) != tail[i])
    {
      assert (Zeros(|q|) + r)[i + 1] == (Zeros(|q| - 1) + r)[i];
    }
    if q[0] == d[0] && Reduce(d) == tail {
      forall i | 0 <= i < |d| ensures d[i] == whole[i] {
        if i > 0 { assert Reduce(d)[i - 1] == tail[i - 1]; }
      }
      assert d == whole;
    }
    if d == whole {
      forall i | 0 <= i < |d| - 1 ensures Reduce(d)[i] == tail[i] {
        assert d[i + 1] == whole[i + 1];
      }
      assert Reduce(d) == tail;
    }
  }

  lemma {:induction false} LongDivisionDivides(d: Bits) returns (q: Bits)
    requires |d| >= 16
    ensures Divides(d, q, LongDivision(d))
    decreases |d|
  {
    if |d| == 16 {
      q := [];
      assert d == Xor(TimesGenerator(q), Zeros(0) + d);
    } else {
      var rest := LongDivisionDivides(Reduce(d));
      q := [d[0]] + rest;
      assert q[1..] == rest;
      DividesStep(d, q, LongDivision(d));
    }
  }

  lemma {:induction false} RemainderUnique(d: Bits, q: Bits, r: Bits)
    requires |d| >= 16 && Divides(d, q, r)
    ensures r == LongDivision(d)
    decreases |d|
  {
    if |d| == 16 {
      forall i | 0 <= i < 16 ensures r[i] == d[i] {
        assert (Zeros(0) + r)[i] == r[i];
      }
    } else {
      DividesStep(d, q, r);
      RemainderUnique(Reduce(d), q[1..], r);
    }
  }

  /** Long division computes the remainder, and the remainder is unique. */
  lemma LongDivisionIsRemainder(d: Bits, r: Bits)
    requires |d| >= 16
    ensures IsRemainder(d, r) <==> r == LongDivision(d)
  {
    var q0 := LongDivisionDivides(d);
    if IsRemainder(d, r) {
      var q: Bits :| Divides(d, q, r);
      RemainderUnique(d, q, r);
    }
  }
}
