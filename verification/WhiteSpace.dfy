/** What strings.TrimSpace takes off a byte string. */
module WhiteSpace {
  import opened Bytes

  /** One white-space character of Unicode: the ASCII ones, U+0085, U+00A0 or a wide one. */
  predicate IsSpace(c: Text) {
    || (|c| == 1 && (c[0] == 0x20 || 0x09 <= c[0] <= 0x0D))
    || c == [0xC2, 0x85] || c == [0xC2, 0xA0]
    || (|c| == 3 && WideSpace(c))
  }

  /** The white space of Unicode, by number. */
  predicate SpacePoint(p: bv16) {
    || p == 0x20 || 0x09 <= p <= 0x0D || p == 0x85 || p == 0xA0 || p == 0x1680 || 0x2000 <= p <= 0x200A
    || p == 0x2028 || p == 0x2029 || p == 0x202F || p == 0x205F || p == 0x3000
  }

  /** A character of the basic plane as UTF-8 writes it. */
  function Utf8(p: bv16): Text {
    if p < 0x80 then [p as byte]
    else if p < 0x800 then [0xC0 | ((p >> 6) as byte), 0x80 | ((p & 0x3F) as byte)]
    else [0xE0 | ((p >> 12) as byte), 0x80 | (((p >> 6) & 0x3F) as byte), 0x80 | ((p & 0x3F) as byte)]
  }

  lemma WideIsSpace(c: Text)
    requires |c| == 3
    ensures WideSpace(c) <==> exists p: bv16 :: SpacePoint(p) && p >= 0x800 && Utf8(p) == c
  {
    if WideSpace(c) {
      var p: bv16 := ((c[0] & 0x0F) as bv16 << 12) | ((c[1] & 0x3F) as bv16 << 6) | ((c[2] & 0x3F) as bv16);
      assert SpacePoint(p) && p >= 0x800;
      assert Utf8(p) == [c[0], c[1], c[2]];
      assert c == [c[0], c[1], c[2]];
    }
  }

  /** A white-space character is one of these, as UTF-8 writes it. */
  lemma SpacesAre(c: Text)
    ensures IsSpace(c) <==> exists p: bv16 :: SpacePoint(p) && Utf8(p) == c
  {
    if |c| == 3 {
      WideIsSpace(c);
    }
    hide WideSpace;
    if IsSpace(c) && |c| < 3 {
      var p: bv16 := if |c| == 1 then c[0] as bv16 else c[1] as bv16;
      assert SpacePoint(p) && Utf8(p) == c;
    }
    if p: bv16 :| SpacePoint(p) && Utf8(p) == c && p < 0x800 {
      assert p == 0x20 || 0x09 <= p <= 0x0D || p == 0x85 || p == 0xA0;
    }
  }

  /** White space only. */
  ghost predicate Blank(s: Text)
    decreases |s|
  {
    s == [] || exists n: nat :: 0 < n <= |s| && IsSpace(s[..n]) && Blank(s[n..])
  }

  /** No white space at either end. */
  ghost predicate Trimmed(s: Text) {
    forall n: nat :: n <= |s| ==> !IsSpace(s[..n]) && !IsSpace(s[|s| - n..])
  }

  lemma SpaceBefore(s: Text, n: nat)
    requires n <= |s|
    ensures IsSpace(s[..n]) <==> n > 0 && SpaceAtStart(s) == n
  {
    assert n == 2 ==> s[..n] == [s[0], s[1]];
    hide WideSpace;
  }

  lemma SpaceAfter(s: Text, n: nat)
    requires n <= |s|
    ensures IsSpace(s[|s| - n..]) <==> n > 0 && SpaceAtEnd(s) == n
  {
  }

  lemma NoSpaceAtEither(s: Text)
    ensures Trimmed(s) <==> SpaceAtStart(s) == 0 && SpaceAtEnd(s) == 0
  {
    hide IsSpace, SpaceAtStart, SpaceAtEnd;
    var i, j := SpaceAtStart(s), SpaceAtEnd(s);
    SpaceBefore(s, i);
    SpaceAfter(s, j);
    if Trimmed(s) {
      assert !IsSpace(s[..i]) && !IsSpace(s[..j]);
    }
    if SpaceAtStart(s) == 0 && SpaceAtEnd(s) == 0 {
      forall n: nat | n <= |s| ensures !IsSpace(s[..n]) && !IsSpace(s[|s| - n..]) {
        SpaceBefore(s, n);
        SpaceAfter(s, n);
      }
    }
  }

  // ---- white space goes

  lemma SpaceFirst(c: Text, s: Text)
    requires IsSpace(c)
    ensures TrimLeft(c + s) == TrimLeft(s) && TrimRight(s + c) == TrimRight(s)
  {
    hide IsSpace, SpaceAtStart, SpaceAtEnd;
    assert (c + s)[..|c|] == c && (c + s)[|c|..] == s;
    SpaceBefore(c + s, |c|);
    assert (s + c)[|s|..] == c && (s + c)[..|s|] == s && |s + c| - |c| == |s|;
    SpaceAfter(s + c, |c|);
  }

  lemma {:induction false} BlankFirst(a: Text, s: Text)
    requires Blank(a)
    ensures TrimLeft(a + s) == TrimLeft(s) && TrimRight(s + a) == TrimRight(s)
    decreases |a|
  {
    hide IsSpace, TrimLeft, TrimRight;
    if a == [] {
      assert a + s == s && s + a == s;
    } else {
      var n: nat :| 0 < n <= |a| && IsSpace(a[..n]) && Blank(a[n..]);
      SpaceFirst(a[..n], a[n..] + s);
      BlankFirst(a[n..], s);
      assert a + s == a[..n] + (a[n..] + s);
      BlankFirst(a[n..], s + a[..n]);
      SpaceFirst(a[..n], s);
      assert s + a == s + a[..n] + a[n..];
    }
  }

  // ---- nothing else goes

  lemma {:induction false} BlankConcat(a: Text, b: Text)
    requires Blank(a) && Blank(b)
    ensures Blank(a + b)
    decreases |a|
  {
    hide IsSpace;
    if a == [] {
      assert a + b == b;
    } else {
      var n: nat :| 0 < n <= |a| && IsSpace(a[..n]) && Blank(a[n..]);
      BlankConcat(a[n..], b);
      assert (a + b)[..n] == a[..n] && (a + b)[n..] == a[n..] + b;
    }
  }

  lemma OneBlank(c: Text)
    requires IsSpace(c)
    ensures Blank(c)
  {
    assert c[..|c|] == c && Blank(c[|c|..]);
  }

  lemma {:induction false} LeftParts(s: Text) returns (a: Text)
    ensures Blank(a) && s == a + TrimLeft(s) && SpaceAtStart(TrimLeft(s)) == 0
    decreases |s|
  {
    hide IsSpace, SpaceAtStart, Blank;
    var n := SpaceAtStart(s);
    NoBlank();
    if n == 0 {
      a := [];
      assert s == [] + s;
    } else {
      var b := LeftParts(s[n..]);
      SpaceBefore(s, n);
      OneBlank(s[..n]);
      BlankConcat(s[..n], b);
      a := s[..n] + b;
    }
  }

  lemma NoBlank()
    ensures Blank([])
  {
  }

  lemma {:induction false} RightParts(s: Text) returns (b: Text)
    ensures Blank(b) && s == TrimRight(s) + b && SpaceAtEnd(TrimRight(s)) == 0
    decreases |s|
  {
    hide IsSpace, SpaceAtEnd, Blank;
    var n := SpaceAtEnd(s);
    NoBlank();
    if n == 0 {
      b := [];
      assert s == s + [];
    } else {
      var a := RightParts(s[..|s| - n]);
      SpaceAfter(s, n);
      OneBlank(s[|s| - n..]);
      BlankConcat(a, s[|s| - n..]);
      b := a + s[|s| - n..];
      assert s == s[..|s| - n] + s[|s| - n..];
    }
  }

  lemma StartOfPrefix(s: Text, m: nat)
    requires m <= |s| && SpaceAtStart(s) == 0
    ensures SpaceAtStart(s[..m]) == 0
  {
    var n := SpaceAtStart(s[..m]);
    assert n > 0 ==> s[..m][..n] == s[..n];
    SpaceBefore(s[..m], n);
    SpaceBefore(s, n);
    hide SpaceAtStart, IsSpace;
  }

  /** The first byte of white space does not continue a character. */
  lemma BlankStarts(b: Text)
    requires Blank(b) && b != []
    ensures b[0] < 0x80 || b[0] > 0xBF
  {
    var n: nat :| 0 < n <= |b| && IsSpace(b[..n]) && Blank(b[n..]);
    assert b[..n][0] == b[0];
    hide Blank;
  }

  lemma SpaceContinues(c: Text, k: nat)
    requires IsSpace(c) && 0 < k < |c|
    ensures 0x80 <= c[k] <= 0xBF
  {
  }

  lemma StartBeforeBlank(t: Text, b: Text)
    requires Trimmed(t) && t != [] && Blank(b)
    ensures SpaceAtStart(t + b) == 0
  {
    hide SpaceAtStart, IsSpace, Blank;
    var n := SpaceAtStart(t + b);
    SpaceBefore(t + b, n);
    if n > |t| {
      assert (t + b)[..n][|t|] == b[0];
      BlankStarts(b);
      SpaceContinues((t + b)[..n], |t|);
    } else {
      assert (t + b)[..n] == t[..n];
    }
  }

  /** TrimSpace leaves the one text without white space at its ends that the given text
      is with white space around it. */
  lemma TrimmedIff(s: Text, t: Text)
    ensures TrimSpace(s) == t <==> Trimmed(t) && exists a, b :: Blank(a) && Blank(b) && s == a + t + b
  {
    hide IsSpace, SpaceAtStart, SpaceAtEnd, TrimLeft, TrimRight, Blank, Trimmed;
    if TrimSpace(s) == t {
      var u := TrimLeft(s);
      var a := LeftParts(s);
      var b := RightParts(u);
      assert t == u[..|t|];
      StartOfPrefix(u, |t|);
      NoSpaceAtEither(t);
      assert s == a + t + b;
    }
    if Trimmed(t) && exists a, b :: Blank(a) && Blank(b) && s == a + t + b {
      var a, b :| Blank(a) && Blank(b) && s == a + t + b;
      NoSpaceAtEither(t);
      assert s == a + (t + b);
      BlankFirst(a, t + b);
      if t == [] {
        assert t + b == b + [] && [] + b == b;
        BlankFirst(b, []);
        NothingToTrim([]);
      } else {
        StartBeforeBlank(t, b);
        NothingToTrim(t + b);
        BlankFirst(b, t);
        NothingToTrim(t);
      }
    }
  }

  lemma NothingToTrim(s: Text)
    ensures SpaceAtStart(s) == 0 ==> TrimLeft(s) == s
    ensures SpaceAtEnd(s) == 0 ==> TrimRight(s) == s
    ensures TrimLeft([]) == [] && TrimRight([]) == []
  {
    hide WideSpace;
  }

  /** White space around a text does not matter. */
  lemma TrimAround(a: Text, s: Text, b: Text)
    requires Blank(a) && Blank(b)
    ensures TrimSpace(a + s + b) == TrimSpace(s)
  {
    hide TrimSpace, Blank, Trimmed;
    var t := TrimSpace(s);
    TrimmedIff(s, t);
    var a', b' :| Blank(a') && Blank(b') && s == a' + t + b';
    BlankConcat(a, a');
    BlankConcat(b', b);
    assert a + s + b == (a + a') + t + (b' + b);
    TrimmedIff(a + s + b, t);
  }

  lemma TrimmedToNothing(s: Text)
    ensures TrimSpace(s) == [] <==> Blank(s)
  {
    hide IsSpace, TrimSpace, Blank, Trimmed;
    if Blank(s) {
      NoBlank();
      TrimAround(s, [], []);
      TrimsNothing();
      assert s + [] + [] == s;
    }
    if TrimSpace(s) == [] {
      TrimmedIff(s, []);
      var a, b :| Blank(a) && Blank(b) && s == a + [] + b;
      BlankConcat(a, b);
      assert s == a + b;
    }
  }

  lemma TrimsNothing()
    ensures TrimSpace([]) == []
  {
    NothingToTrim([]);
  }
}
