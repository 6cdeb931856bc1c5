/** The LIKE operator with an escape character (PostgreSQL manual, section
    9.7.1), and the escaping that makes a pattern literal. */
module Like {
  const ESCAPE := '\\'

  /** Does `t` match the pattern `p`? A pattern that ends in the escape character
      matches nothing. */
  predicate Matches(t: string, p: string)
    decreases |p|, |t|
  {
    if p == [] then t == []
    else if p[0] == ESCAPE then
      |p| > 1 && t != [] && t[0] == p[1] && Matches(t[1..], p[2..])
    else if p[0] == '%' then
      Matches(t, p[1..]) || (t != [] && Matches(t[1..], p))
    else if p[0] == '_' then t != [] && Matches(t[1..], p[1..])
    else t != [] && t[0] == p[0] && Matches(t[1..], p[1..])
  }

  predicate IsMeta(c: char) {
    c == ESCAPE || c == '%' || c == '_'
  }

  /** strings.NewReplacer over the three metacharacters. */
  function EscapeLike(s: string): string {
    if s == [] then []
    else (if IsMeta(s[0]) then [ESCAPE, s[0]] else [s[0]]) + EscapeLike(s[1..])
  }

  predicate OccursAt(t: string, s: string, i: int) {
    0 <= i <= |t| - |s| && t[i..i + |s|] == s
  }

  predicate Contains(t: string, s: string) {
    exists i :: 0 <= i <= |t| - |s| && OccursAt(t, s, i)
  }

  /** The escaped text, followed by a pattern, matches the text followed by a
      match of that pattern. */
  lemma {:induction false} MatchesEscaped(t: string, s: string, p: string)
    ensures Matches(t, EscapeLike(s) + p) <==> s <= t && Matches(t[|s|..], p)
    decreases |s|
  {
    if s == [] {
      assert EscapeLike(s) + p == p;
      assert t[0..] == t;
    } else {
      var rest := EscapeLike(s[1..]) + p;
      var all := EscapeLike(s) + p;
      assert s == [s[0]] + s[1..];
      if IsMeta(s[0]) {
        assert all == [ESCAPE, s[0]] + rest;
        assert all[2..] == rest;
      } else {
        assert all == [s[0]] + rest;
        assert all[1..] == rest;
      }
      if t != [] && t[0] == s[0] {
        MatchesEscaped(t[1..], s[1..], p);
        assert t == [t[0]] + t[1..];
        if |t| >= |s| {
          assert t[1..][|s| - 1..] == t[|s|..];
        }
      }
    }
  }

  lemma {:induction false} MatchesPercent(t: string, p: string)
    ensures Matches(t, "%" + p) <==> exists i :: 0 <= i <= |t| && Matches(t[i..], p)
    decreases |t|
  {
    var q := "%" + p;
    assert q[1..] == p;
    assert t[0..] == t;
    if t != [] {
      MatchesPercent(t[1..], p);
      if i :| 0 <= i <= |t| && Matches(t[i..], p) {
        if i > 0 {
          assert t[1..][i - 1..] == t[i..];
        }
      }
      if Matches(t[1..], q) {
        var i :| 0 <= i <= |t[1..]| && Matches(t[1..][i..], p);
        assert t[1..][i..] == t[i + 1..];
      }
    }
  }

  lemma {:induction false} MatchesAnything(t: string)
    ensures Matches(t, "%")
    decreases |t|
  {
    if t != [] {
      MatchesAnything(t[1..]);
    }
  }

  /** The pattern around an escaped text matches exactly the strings in which the
      text occurs, whatever metacharacters it has. */
  lemma ContainsPattern(t: string, s: string)
    ensures Matches(t, "%" + EscapeLike(s) + "%") <==> Contains(t, s)
  {
    var tail := EscapeLike(s) + "%";
    assert "%" + EscapeLike(s) + "%" == "%" + tail;
    MatchesPercent(t, tail);
    forall i | 0 <= i <= |t|
      ensures Matches(t[i..], tail) <==> OccursAt(t, s, i)
    {
      MatchesEscaped(t[i..], s, "%");
      if s <= t[i..] {
        MatchesAnything(t[i..][|s|..]);
        assert t[i..i + |s|] == t[i..][..|s|];
      }
      if OccursAt(t, s, i) {
        assert t[i..][..|s|] == t[i..i + |s|];
      }
    }
  }

  /** A pattern of ordinary characters and a final percent sign is a prefix test. */
  lemma PrefixPattern(t: string, s: string)
    requires forall i :: 0 <= i < |s| ==> !IsMeta(s[i])
    ensures Matches(t, s + "%") <==> s <= t
  {
    OrdinaryUnchanged(s);
    MatchesEscaped(t, s, "%");
    if s <= t {
      MatchesAnything(t[|s|..]);
    }
  }

  lemma {:induction false} OrdinaryUnchanged(s: string)
    requires forall i :: 0 <= i < |s| ==> !IsMeta(s[i])
    ensures EscapeLike(s) == s
  {
    if s != [] {
      OrdinaryUnchanged(s[1..]);
    }
  }

  // ---- ILIKE: both sides folded first

  function Fold(fold: char -> char, s: string): (r: string)
    ensures |r| == |s|
  {
    if s == [] then [] else [fold(s[0])] + Fold(fold, s[1..])
  }

  /** Folding leaves the metacharacters alone, and makes no new ones. */
  ghost predicate KeepsMeta(fold: char -> char) {
    forall c :: (IsMeta(c) ==> fold(c) == c) && (!IsMeta(c) ==> !IsMeta(fold(c)))
  }

  lemma {:induction false} FoldEscaped(fold: char -> char, s: string)
    requires KeepsMeta(fold)
    ensures Fold(fold, EscapeLike(s)) == EscapeLike(Fold(fold, s))
  {
    if s != [] {
      FoldEscaped(fold, s[1..]);
      var head := if IsMeta(s[0]) then [ESCAPE, s[0]] else [s[0]];
      FoldConcat(fold, head, EscapeLike(s[1..]));
      assert IsMeta(ESCAPE);
      assert head[1..] == if IsMeta(s[0]) then [s[0]] else [];
      assert Fold(fold, [s[0]]) == [fold(s[0])];
    }
  }

  lemma {:induction false} FoldConcat(fold: char -> char, s: string, t: string)
    ensures Fold(fold, s + t) == Fold(fold, s) + Fold(fold, t)
  {
    if s == [] {
      assert s + t == t;
    } else {
      assert (s + t)[1..] == s[1..] + t;
      FoldConcat(fold, s[1..], t);
    }
  }

  /** The case-blind pattern search finds exactly the case-blind occurrences. */
  lemma ContainsPatternFolded(fold: char -> char, t: string, s: string)
    requires KeepsMeta(fold)
    ensures Matches(Fold(fold, t), Fold(fold, "%" + EscapeLike(s) + "%")) <==> Contains(Fold(fold, t), Fold(fold, s))
  {
    FoldConcat(fold, "%" + EscapeLike(s), "%");
    FoldConcat(fold, "%", EscapeLike(s));
    FoldEscaped(fold, s);
    assert IsMeta('%');
    assert Fold(fold, "%") == "%";
    ContainsPattern(Fold(fold, t), Fold(fold, s));
  }
}
