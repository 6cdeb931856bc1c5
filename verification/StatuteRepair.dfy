/** What repairing a statute's text and trimming its bodies leave, said of the text alone
    (internal/ingest/legislation.go). */
module StatuteRepair {
  import opened StatuteText

  // ---- trimming

  lemma {:induction false} LeftSpace(space: Space, s: string)
    ensures AllSpace(space, s[..|s| - |TrimLeft(space, s)|])
  {
    if s != [] && space(s[0]) {
      LeftSpace(space, s[1..]);
      var t := TrimLeft(space, s[1..]);
      forall i | 0 <= i < |s| - |t| ensures space(s[i]) {
        assert i > 0 ==> s[1..][..|s| - 1 - |t|][i - 1] == s[i];
      }
    }
  }

  lemma {:induction false} RightSpace(space: Space, s: string)
    ensures AllSpace(space, s[|TrimRight(space, s)|..])
  {
    if s != [] && space(s[|s| - 1]) {
      var init := s[..|s| - 1];
      RightSpace(space, init);
      var n := |TrimRight(space, s)|;
      forall i | n <= i < |s| ensures space(s[i]) {
        assert i < |s| - 1 ==> init[n..][i - n] == s[i];
      }
    }
  }

  lemma OneSpace(space: Space, c: char, s: string)
    requires space(c)
    ensures TrimLeft(space, [c] + s) == TrimLeft(space, s) && TrimRight(space, s + [c]) == TrimRight(space, s)
  {
    assert ([c] + s)[1..] == s && (s + [c])[..|s + [c]| - 1] == s;
  }

  lemma {:induction false} SpaceFirst(space: Space, a: string, s: string)
    requires AllSpace(space, a)
    ensures TrimLeft(space, a + s) == TrimLeft(space, s)
    decreases |a|
  {
    hide TrimLeft;
    if a == [] {
      assert a + s == s;
    } else {
      var c, rest := a[0], a[1..];
      assert a + s == [c] + (rest + s);
      SpaceFirst(space, rest, s);
      OneSpace(space, c, rest + s);
    }
  }

  lemma {:induction false} SpaceLast(space: Space, s: string, b: string)
    requires AllSpace(space, b)
    ensures TrimRight(space, s + b) == TrimRight(space, s)
    decreases |b|
  {
    hide TrimRight;
    if b == [] {
      assert s + b == s;
    } else {
      var n := |b| - 1;
      SpaceLast(space, s, b[..n]);
      OneSpace(space, b[n], s + b[..n]);
      assert s + b == (s + b[..n]) + [b[n]];
    }
  }

  /** No white space at either end. */
  predicate Trimmed(space: Space, t: string) {
    t != "" ==> !space(t[0]) && !space(t[|t| - 1])
  }

  /** Trimming leaves the one text without white space at its ends that the given text is
      with white space around it. */
  lemma TrimmedIff(space: Space, s: string, t: string)
    ensures Trim(space, s) == t <==>
      Trimmed(space, t) && exists a, b :: AllSpace(space, a) && AllSpace(space, b) && s == a + t + b
  {
    hide TrimLeft, TrimRight, AllSpace;
    if Trim(space, s) == t {
      var u := TrimLeft(space, s);
      LeftSpace(space, s);
      RightSpace(space, u);
      TrimEnds(space, s);
      assert s == s[..|s| - |u|] + t + u[|t|..];
    }
    if Trimmed(space, t) && exists a, b :: AllSpace(space, a) && AllSpace(space, b) && s == a + t + b {
      var a, b :| AllSpace(space, a) && AllSpace(space, b) && s == a + t + b;
      TrimAround(space, a, t, b);
      Untouched(space, t);
    }
  }

  lemma Untouched(space: Space, t: string)
    requires Trimmed(space, t)
    ensures Trim(space, t) == t
  {
  }

  /** White space around a text does not matter. */
  lemma TrimAround(space: Space, a: string, s: string, b: string)
    requires AllSpace(space, a) && AllSpace(space, b)
    ensures Trim(space, a + s + b) == Trim(space, s)
  {
    assert a + s + b == a + (s + b);
    SpaceFirst(space, a, s + b);
    TrimBehind(space, s, b);
    hide TrimLeft, TrimRight;
  }

  lemma InkFirst(space: Space, s: string, b: string)
    requires s != "" && !space(s[0])
    ensures TrimLeft(space, s + b) == s + b && TrimLeft(space, s) == s
  {
    assert (s + b)[0] == s[0];
  }

  lemma TrimBehind(space: Space, s: string, b: string)
    requires AllSpace(space, b)
    ensures Trim(space, s + b) == Trim(space, s)
  {
    hide TrimLeft, TrimRight, AllSpace;
    var u := TrimLeft(space, s);
    var p := s[..|s| - |u|];
    LeftSpace(space, s);
    assert s == p + u;
    if u == "" {
      assert s + b == p + b && p == s;
      SpaceFirst(space, p, b);
      SpaceFirst(space, b, "");
      assert b + "" == b;
      NothingLeft(space);
    } else {
      assert s + b == p + (u + b);
      SpaceFirst(space, p, u + b);
      InkFirst(space, u, b);
      SpaceLast(space, u, b);
    }
  }

  lemma NothingLeft(space: Space)
    ensures TrimLeft(space, "") == "" && TrimRight(space, "") == ""
  {
  }

  // ---- one wrapped marker

  /** A marker alone on its line and the number on the next, anywhere in a text, become one
      line: the marker, a space and what the next line has between its white space. */
  lemma {:induction false} MarkerJoined(space: Space, before: seq<string>, a: string, b: string, c: string, text: string, d: string,
                                        after: seq<string>)
    requires SpaceOk(space) && AllSpace(space, a) && AllSpace(space, b) && AllSpace(space, c) && AllSpace(space, d)
    requires text != "" && '0' <= text[0] <= '9' && Trimmed(space, text)
    requires NoneWrapped(space, before + [a + "Art." + b]) && NoneWrapped(space, after)
    ensures Repaired(space, before + [a + "Art." + b] + [c + text + d] + after) == before + ["Art. " + text] + after
    decreases |before|
  {
    hide Trim, AllSpace, NoneWrapped;
    var line, next := a + "Art." + b, c + text + d;
    var all := before + [line] + [next] + after;
    if before == [] {
      JoinedFirst(space, a, b, c, text, d);
      RepairedUnchanged(space, after);
      assert all[0] == line && all[1] == next && all[2..] == after;
      assert before + ["Art. " + text] + after == ["Art. " + text] + after;
    } else {
      var rest := before[1..];
      NoneWrappedTail(space, before + [line]);
      assert (before + [line])[1..] == rest + [line];
      MarkerJoined(space, rest, a, b, c, text, d, after);
      assert all[1..] == rest + [line] + [next] + after;
      assert all[0] == before[0] && all[1] == (before + [line])[1];
      assert before == [before[0]] + rest;
    }
  }

  lemma NoneWrappedTail(space: Space, lines: seq<string>)
    requires |lines| > 1 && NoneWrapped(space, lines)
    ensures !Wrapped(space, lines[0], lines[1]) && NoneWrapped(space, lines[1..])
  {
    hide Wrapped;
    assert !Wrapped(space, lines[0], lines[0 + 1]);
    forall i | 0 <= i < |lines[1..]| - 1 ensures !Wrapped(space, lines[1..][i], lines[1..][i + 1]) {
      assert !Wrapped(space, lines[i + 1], lines[i + 1 + 1]);
    }
  }

  lemma JoinedFirst(space: Space, a: string, b: string, c: string, text: string, d: string)
    requires SpaceOk(space) && AllSpace(space, a) && AllSpace(space, b) && AllSpace(space, c) && AllSpace(space, d)
    requires text != "" && '0' <= text[0] <= '9' && Trimmed(space, text)
    ensures Wrapped(space, a + "Art." + b, c + text + d)
    ensures Rejoined(space, c + text + d) == "Art. " + text
  {
    hide Trim, AllSpace;
    TrimAround(space, a, "Art.", b);
    TrimAround(space, c, text, d);
    Untouched(space, "Art.");
    Untouched(space, text);
    assert MARKER + " " == "Art. ";
  }

  // ---- what is kept

  /** The characters of a text that are not white space. */
  function Ink(space: Space, s: string): string {
    if s == "" then "" else (if space(s[0]) then "" else [s[0]]) + Ink(space, s[1..])
  }

  lemma InkHead(space: Space, c: char, s: string)
    ensures Ink(space, [c] + s) == Ink(space, [c]) + Ink(space, s)
  {
    assert ([c] + s)[1..] == s && [c][1..] == "";
  }

  lemma {:induction false} InkConcat(space: Space, a: string, b: string)
    ensures Ink(space, a + b) == Ink(space, a) + Ink(space, b)
    decreases |a|
  {
    if a == "" {
      assert a + b == b;
    } else {
      var c, rest := a[0], a[1..];
      assert a + b == [c] + (rest + b) && a == [c] + rest;
      hide Ink;
      InkHead(space, c, rest + b);
      InkHead(space, c, rest);
      InkConcat(space, rest, b);
      assert Ink(space, [c]) + (Ink(space, rest) + Ink(space, b)) == Ink(space, [c]) + Ink(space, rest) + Ink(space, b);
    }
  }

  lemma {:induction false} NoInk(space: Space, s: string)
    requires AllSpace(space, s)
    ensures Ink(space, s) == ""
  {
    if s != "" {
      NoInk(space, s[1..]);
    }
  }

  lemma InkTrimmed(space: Space, s: string)
    ensures Ink(space, Trim(space, s)) == Ink(space, s)
  {
    hide Trim, Ink, AllSpace, Trimmed;
    var t := Trim(space, s);
    TrimmedIff(space, s, t);
    var a, b :| AllSpace(space, a) && AllSpace(space, b) && s == a + t + b;
    NoInk(space, a);
    NoInk(space, b);
    InkConcat(space, a + t, b);
    InkConcat(space, a, t);
  }

  lemma InkJoined(space: Space, line: string, next: string)
    requires SpaceOk(space) && Wrapped(space, line, next)
    ensures Ink(space, Rejoined(space, next)) == Ink(space, line) + Ink(space, next)
  {
    hide Trim;
    InkTrimmed(space, line);
    InkTrimmed(space, next);
    InkConcat(space, MARKER + " ", Trim(space, next));
    InkConcat(space, MARKER, " ");
    NoInk(space, " ");
    hide Ink;
  }

  lemma InkCons(space: Space, line: string, rest: seq<string>)
    requires SpaceOk(space)
    ensures Ink(space, JoinLines([line] + rest)) == Ink(space, line) + Ink(space, JoinLines(rest))
  {
    var lines := [line] + rest;
    assert lines[1..] == rest;
    if rest != [] {
      InkConcat(space, line + ['\n'], JoinLines(rest));
      InkConcat(space, line, ['\n']);
      NoInk(space, ['\n']);
      hide Ink;
    }
  }

  /** The repair adds, drops and moves nothing but white space. */
  lemma {:induction false} RepairKeepsInk(space: Space, lines: seq<string>)
    requires SpaceOk(space)
    ensures Ink(space, JoinLines(Repaired(space, lines))) == Ink(space, JoinLines(lines))
    decreases |lines|
  {
    hide Ink, Wrapped, Rejoined, JoinLines;
    if lines != [] {
      assert lines == [lines[0]] + lines[1..];
      InkCons(space, lines[0], lines[1..]);
      if |lines| > 1 && Wrapped(space, lines[0], lines[1]) {
        RepairKeepsInk(space, lines[2..]);
        InkJoined(space, lines[0], lines[1]);
        assert lines[1..] == [lines[1]] + lines[2..];
        InkCons(space, lines[1], lines[2..]);
        InkCons(space, Rejoined(space, lines[1]), Repaired(space, lines[2..]));
      } else {
        RepairKeepsInk(space, lines[1..]);
        InkCons(space, lines[0], Repaired(space, lines[1..]));
      }
    }
  }

  // ---- the bodies

  lemma {:induction false} JoinSnoc(lines: seq<string>, last: string)
    requires lines != []
    ensures JoinLines(lines + [last]) == JoinLines(lines) + ['\n'] + last
    decreases |lines|
  {
    if |lines| == 1 {
      assert lines + [last] == [lines[0], last];
    } else {
      JoinSnoc(lines[1..], last);
      assert (lines + [last])[1..] == lines[1..] + [last];
    }
  }

  lemma {:induction false} BodyIsJoined(lines: seq<string>)
    requires lines != []
    ensures Body(lines) == JoinLines(lines) + ['\n']
    decreases |lines|
  {
    hide JoinLines;
    var n := |lines| - 1;
    assert lines == lines[..n] + [lines[n]];
    if n > 0 {
      BodyIsJoined(lines[..n]);
      JoinSnoc(lines[..n], lines[n]);
    } else {
      OneJoined(lines[0]);
    }
  }

  lemma OneJoined(line: string)
    ensures JoinLines([line]) == line && Body([line]) == line + ['\n'] && JoinLines([]) == "" && Body([]) == ""
  {
    assert [line][..0] == [];
  }

  /** A section's text is its lines with a line break between them, without the white space
      around it. */
  lemma BodyIsText(space: Space, lines: seq<string>)
    requires SpaceOk(space)
    ensures Trim(space, Body(lines)) == Trim(space, JoinLines(lines))
  {
    hide Trim, Body, JoinLines;
    if lines == [] {
      OneJoined("");
    } else {
      BodyIsJoined(lines);
      TrimBehind(space, JoinLines(lines), ['\n']);
    }
  }
}
