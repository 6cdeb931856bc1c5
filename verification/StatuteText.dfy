/** From the text of a statute to its sections: wrapped article markers are repaired, the
    text is read line by line, and the bodies are trimmed (internal/ingest/legislation.go). */
module StatuteText {
  import opened Wrappers
  import opened Statute

  /** Which characters are white space. */
  type Space = char -> bool

  predicate SpaceOk(space: Space) {
    space('\n') && space(' ') && !space('A') && !space('.')
  }

  // ---- trimming

  function TrimLeft(space: Space, s: string): (r: string)
    ensures |r| <= |s| && r == s[|s| - |r|..]
    ensures r != [] ==> !space(r[0])
  {
    if s != [] && space(s[0]) then TrimLeft(space, s[1..]) else s
  }

  function TrimRight(space: Space, s: string): (r: string)
    ensures |r| <= |s| && r == s[..|r|]
    ensures r != [] ==> !space(r[|r| - 1])
  {
    if s != [] && space(s[|s| - 1]) then TrimRight(space, s[..|s| - 1]) else s
  }

  function Trim(space: Space, s: string): string {
    TrimRight(space, TrimLeft(space, s))
  }

  ghost predicate AllSpace(space: Space, s: string) {
    forall i :: 0 <= i < |s| ==> space(s[i])
  }

  lemma {:induction false} TrimLeftEmpty(space: Space, s: string)
    ensures TrimLeft(space, s) == "" <==> AllSpace(space, s)
  {
    if s != [] && space(s[0]) {
      TrimLeftEmpty(space, s[1..]);
      assert forall i :: 0 < i < |s| ==> s[1..][i - 1] == s[i];
    }
  }

  lemma {:induction false} TrimRightEmpty(space: Space, s: string)
    ensures TrimRight(space, s) == "" <==> AllSpace(space, s)
  {
    if s != [] && space(s[|s| - 1]) {
      TrimRightEmpty(space, s[..|s| - 1]);
    }
  }

  lemma TrimEmpty(space: Space, s: string)
    ensures Trim(space, s) == "" <==> AllSpace(space, s)
  {
    TrimLeftEmpty(space, s);
    var t := TrimLeft(space, s);
    TrimRightEmpty(space, t);
    assert t != [] ==> !space(t[0]);
    hide TrimLeft, TrimRight;
  }

  /** Trimming leaves what neither starts nor ends with white space. */
  lemma TrimNothing(space: Space, s: string)
    requires s != [] && !space(s[0]) && !space(s[|s| - 1])
    ensures Trim(space, s) == s
  {
  }

  lemma TrimEnds(space: Space, s: string)
    ensures var t := Trim(space, s); t != [] ==> !space(t[0]) && !space(t[|t| - 1])
  {
    hide TrimLeft, TrimRight;
    var l := TrimLeft(space, s);
    var t := TrimRight(space, l);
    assert t == l[..|t|];
  }

  // ---- lines

  predicate OneLine(s: string) {
    '\n' !in s
  }

  /** Where the first line ends. */
  function LineLength(s: string): (n: nat)
    ensures n <= |s| && OneLine(s[..n])
    ensures n < |s| ==> s[n] == '\n'
  {
    if s == [] || s[0] == '\n' then 0
    else
      var n := 1 + LineLength(s[1..]);
      assert s[..n] == [s[0]] + s[1..][..n - 1];
      n
  }

  function SplitLines(s: string): (lines: seq<string>)
    ensures lines != []
    ensures forall i :: 0 <= i < |lines| ==> OneLine(lines[i])
    decreases |s|
  {
    var n := LineLength(s);
    if n == |s| then
      assert s[..n] == s;
      [s]
    else [s[..n]] + SplitLines(s[n + 1..])
  }

  function JoinLines(lines: seq<string>): string {
    if lines == [] then "" else if |lines| == 1 then lines[0] else lines[0] + ['\n'] + JoinLines(lines[1..])
  }

  lemma {:induction false} FirstLineOf(line: string, rest: string)
    requires OneLine(line)
    ensures LineLength(line + ['\n'] + rest) == |line| && LineLength(line) == |line|
  {
    if line != [] {
      assert line[0] in line && forall c :: c in line[1..] ==> c in line;
      FirstLineOf(line[1..], rest);
      assert (line + ['\n'] + rest)[1..] == line[1..] + ['\n'] + rest;
    }
  }

  /** Splitting undoes joining. */
  lemma {:induction false} SplitOfJoin(lines: seq<string>)
    requires lines != [] && forall i :: 0 <= i < |lines| ==> OneLine(lines[i])
    ensures SplitLines(JoinLines(lines)) == lines
    decreases |lines|
  {
    hide OneLine, LineLength;
    if |lines| == 1 {
      FirstLineOf(lines[0], "");
      assert lines == [lines[0]];
      assert JoinLines(lines) == lines[0];
    } else {
      var rest := JoinLines(lines[1..]);
      var s := lines[0] + ['\n'] + rest;
      FirstLineOf(lines[0], rest);
      SplitOfJoin(lines[1..]);
      assert s[..|lines[0]|] == lines[0] && s[|lines[0]| + 1..] == rest;
      assert lines == [lines[0]] + lines[1..];
    }
  }

  // ---- repairing wrapped article markers

  const MARKER := "Art."

  predicate Wrapped(space: Space, line: string, next: string) {
    Trim(space, line) == MARKER && Trim(space, next) != "" && '0' <= Trim(space, next)[0] <= '9'
  }

  function Rejoined(space: Space, next: string): string {
    MARKER + " " + Trim(space, next)
  }

  function Repaired(space: Space, lines: seq<string>): seq<string>
    decreases |lines|
  {
    if lines == [] then []
    else if |lines| > 1 && Wrapped(space, lines[0], lines[1]) then
      [Rejoined(space, lines[1])] + Repaired(space, lines[2..])
    else [lines[0]] + Repaired(space, lines[1..])
  }

  /** The marker and its number stand on two lines nowhere. */
  ghost predicate NoneWrapped(space: Space, lines: seq<string>) {
    forall i :: 0 <= i < |lines| - 1 ==> !Wrapped(space, lines[i], lines[i + 1])
  }

  lemma RejoinedStands(space: Space, line: string, next: string, other: string)
    requires SpaceOk(space) && Wrapped(space, line, next)
    ensures !Wrapped(space, Rejoined(space, next), other) && !Wrapped(space, other, Rejoined(space, next))
  {
    hide Trim;
    TrimEnds(space, next);
    var s := Rejoined(space, next);
    assert s[|s| - 1] == Trim(space, next)[|Trim(space, next)| - 1] && s[0] == 'A';
    TrimNothing(space, s);
    assert |s| > |MARKER|;
  }

  /** The first repaired line: the first line, unless it was joined with the second. */
  lemma RepairedHead(space: Space, lines: seq<string>)
    requires lines != []
    ensures Repaired(space, lines) != []
    ensures Repaired(space, lines)[0] ==
      if |lines| > 1 && Wrapped(space, lines[0], lines[1]) then Rejoined(space, lines[1]) else lines[0]
  {
    hide Wrapped, Rejoined;
  }

  /** After the repair no marker is left wrapped. */
  lemma {:induction false} RepairedNoneWrapped(space: Space, lines: seq<string>)
    requires SpaceOk(space)
    ensures NoneWrapped(space, Repaired(space, lines))
    decreases |lines|
  {
    hide Wrapped, Rejoined;
    if lines != [] {
      var joined := |lines| > 1 && Wrapped(space, lines[0], lines[1]);
      var tail := if joined then lines[2..] else lines[1..];
      var rest := Repaired(space, tail);
      RepairedNoneWrapped(space, tail);
      if tail != [] {
        RepairedHead(space, tail);
        if joined {
          RejoinedStands(space, lines[0], lines[1], rest[0]);
        } else if |tail| > 1 && Wrapped(space, tail[0], tail[1]) {
          RejoinedStands(space, tail[0], tail[1], lines[0]);
        }
      }
      var r := Repaired(space, lines);
      assert r == [r[0]] + rest;
      forall i | 0 <= i < |r| - 1 ensures !Wrapped(space, r[i], r[i + 1]) {
        if i > 0 {
          assert r[i] == rest[i - 1] && r[i + 1] == rest[i];
        }
      }
    }
  }

  /** Text without a wrapped marker is left as it is, so a second repair changes nothing. */
  lemma {:induction false} RepairedUnchanged(space: Space, lines: seq<string>)
    requires NoneWrapped(space, lines)
    ensures Repaired(space, lines) == lines
    decreases |lines|
  {
    hide Wrapped, Rejoined;
    if lines != [] {
      forall i | 0 <= i < |lines[1..]| - 1 ensures !Wrapped(space, lines[1..][i], lines[1..][i + 1]) {
        assert !Wrapped(space, lines[i + 1], lines[i + 1 + 1]);
      }
      RepairedUnchanged(space, lines[1..]);
      assert lines == [lines[0]] + lines[1..];
    }
  }

  lemma TrimOneLine(space: Space, s: string)
    requires OneLine(s)
    ensures OneLine(Trim(space, s))
  {
    hide TrimLeft, TrimRight;
    var l := TrimLeft(space, s);
    assert l == s[|s| - |l|..];
    var t := TrimRight(space, l);
    assert t == l[..|t|];
    forall c | c in t ensures c in s {
      assert c in l;
    }
  }

  lemma {:induction false} RepairedLines(space: Space, lines: seq<string>)
    requires forall i :: 0 <= i < |lines| ==> OneLine(lines[i])
    ensures forall i :: 0 <= i < |Repaired(space, lines)| ==> OneLine(Repaired(space, lines)[i])
    ensures lines != [] ==> Repaired(space, lines) != []
    decreases |lines|
  {
    hide Wrapped, Trim;
    if lines != [] {
      if |lines| > 1 && Wrapped(space, lines[0], lines[1]) {
        TrimOneLine(space, lines[1]);
        RepairedLines(space, lines[2..]);
      } else {
        RepairedLines(space, lines[1..]);
      }
    }
  }

  lemma RepairedStep(space: Space, lines: seq<string>, i: nat)
    requires i < |lines|
    ensures
      var joined := i + 1 < |lines| && Bare(space, lines[i]) && Numbered(space, lines[i + 1]);
      && (joined ==> Repaired(space, lines[i..]) == [Rejoined(space, lines[i + 1])] + Repaired(space, lines[i + 2..]))
      && (!joined ==> Repaired(space, lines[i..]) == [lines[i]] + Repaired(space, lines[i + 1..]))
  {
    var s := lines[i..];
    hide Rejoined, Wrapped, Bare, Numbered;
    assert s[0] == lines[i] && s[1..] == lines[i + 1..];
    if i + 1 < |lines| {
      assert s[1] == lines[i + 1] && s[2..] == lines[i + 2..];
      WrappedIs(space, lines[i], lines[i + 1]);
    }
  }

  method JoinWrappedArt(space: Space, text: string) returns (r: string)
    ensures r == JoinLines(Repaired(space, SplitLines(text)))
  {
    hide Repaired, Bare, Numbered, Rejoined, SplitLines, JoinLines;
    var lines := SplitLines(text);
    var out: seq<string> := [];
    var i := 0;
    assert lines[0..] == lines;
    while i < |lines|
      invariant 0 <= i <= |lines|
      invariant Repaired(space, lines) == out + Repaired(space, lines[i..])
      decreases |lines| - i
    {
      RepairedStep(space, lines, i);
      if Bare(space, lines[i]) && i + 1 < |lines| && Numbered(space, lines[i + 1]) {
        out := out + [Rejoined(space, lines[i + 1])];
        i := i + 2;
      } else {
        out := out + [lines[i]];
        i := i + 1;
      }
    }
    NothingRepaired(space, lines[i..]);
    assert Repaired(space, lines) == out;
    r := JoinLines(out);
  }

  lemma NothingRepaired(space: Space, lines: seq<string>)
    requires lines == []
    ensures Repaired(space, lines) == []
  {
  }

  predicate Bare(space: Space, line: string) {
    Trim(space, line) == MARKER
  }

  predicate Numbered(space: Space, next: string) {
    Trim(space, next) != "" && '0' <= Trim(space, next)[0] <= '9'
  }

  lemma WrappedIs(space: Space, line: string, next: string)
    ensures Wrapped(space, line, next) <==> Bare(space, line) && Numbered(space, next)
  {
    hide Trim;
  }

  // ---- the sections, with their text

  datatype Entry =
    | EmentaEntry(body: string)
    | ArticleEntry(number: string, context: Context, body: string)
    | AnexoEntry(number: string, body: string)

  /** Each line with its end. */
  function Body(lines: seq<string>): string {
    if lines == [] then "" else Body(lines[..|lines| - 1]) + lines[|lines| - 1] + ['\n']
  }

  /** A section with its text as it is collected. */
  function Raw(s: Section): Entry {
    match s
    case Ementa(lines) => EmentaEntry(Body(lines))
    case Article(n, c, lines) => ArticleEntry(n, c, Body(lines))
    case Anexo(n, lines) => AnexoEntry(n, Body(lines))
  }

  function Finished(space: Space, e: Entry): Entry {
    match e
    case EmentaEntry(b) => EmentaEntry(Trim(space, b))
    case ArticleEntry(n, c, b) => ArticleEntry(n, c, Trim(space, b))
    case AnexoEntry(n, b) => AnexoEntry(n, Trim(space, b))
  }

  function Entries(space: Space, sections: seq<Section>): (r: seq<Entry>)
    ensures |r| == |sections|
  {
    seq(|sections|, i requires 0 <= i < |sections| => Finished(space, Raw(sections[i])))
  }

  /** What a line is: its heading patterns see it trimmed. */
  function Reader(space: Space, patterns: Classify): Classify {
    line => patterns(Trim(space, line))
  }

  function Blank(space: Space): string -> bool {
    line => Trim(space, line) == ""
  }

  /** A text of lines is white space exactly when every line is. */
  lemma {:induction false} BodyBlank(space: Space, lines: seq<string>)
    requires SpaceOk(space)
    ensures Trim(space, Body(lines)) == "" <==> BlankText(lines, Blank(space))
    decreases |lines|
  {
    hide Trim;
    TrimEmpty(space, Body(lines));
    if lines != [] {
      var n := |lines| - 1;
      BodyBlank(space, lines[..n]);
      TrimEmpty(space, Body(lines[..n]));
      TrimEmpty(space, lines[n]);
      SpaceConcat(space, Body(lines[..n]), lines[n]);
      assert BlankText(lines, Blank(space)) <==> BlankText(lines[..n], Blank(space)) && Blank(space)(lines[n]);
    }
  }

  lemma SpaceConcat(space: Space, a: string, b: string)
    requires SpaceOk(space)
    ensures AllSpace(space, a + b + ['\n']) <==> AllSpace(space, a) && AllSpace(space, b)
  {
    var s := a + b + ['\n'];
    if AllSpace(space, s) {
      assert forall i :: 0 <= i < |a| ==> a[i] == s[i];
      assert forall i :: 0 <= i < |b| ==> b[i] == s[|a| + i];
    }
  }

  /** The closing of the section that is open. */
  method Flush(space: Space, out: seq<Entry>, cur: Option<Entry>, ghost sections: seq<Section>, ghost open: Option<Section>)
    returns (r: seq<Entry>)
    requires SpaceOk(space) && out == Entries(space, sections) && IsRaw(cur, open)
    ensures r == Entries(space, Flushed(sections, open, Blank(space)))
  {
    hide Trim, Body, BlankText;
    r := out;
    if cur.Some? {
      BodyBlank(space, open.value.lines);
      var done := Finished(space, cur.value);
      if !(done.EmentaEntry? && done.body == "") {
        r := r + [done];
      }
    }
  }

  ghost predicate IsRaw(cur: Option<Entry>, open: Option<Section>) {
    cur == match open case None => None case Some(s) => Some(Raw(s))
  }

  function Append(e: Entry, line: string): Entry {
    match e
    case EmentaEntry(b) => EmentaEntry(b + line + ['\n'])
    case ArticleEntry(n, c, b) => ArticleEntry(n, c, b + line + ['\n'])
    case AnexoEntry(n, b) => AnexoEntry(n, b + line + ['\n'])
  }

  lemma AppendIsRaw(s: Section, line: string)
    ensures Append(Raw(s), line) == Raw(WithLine(s, line))
  {
    assert (s.lines + [line])[..|s.lines|] == s.lines;
  }

  /** parseStatute: nothing but an ementa is no statute. */
  method ParseStatute(space: Space, patterns: Classify, text: string) returns (r: seq<Entry>)
    requires SpaceOk(space)
    ensures r == Entries(space, Parsed(Repaired(space, SplitLines(text)), Reader(space, patterns), Blank(space)))
  {
    hide Repaired, SplitLines, JoinLines, Trim, Body, Turn, BlankText, Flushed, OneLine;
    var joined := JoinWrappedArt(space, text);
    ghost var repaired := Repaired(space, SplitLines(text));
    RepairedLines(space, SplitLines(text));
    SplitOfJoin(repaired);
    var lines := SplitLines(joined);
    var out, cur, ctx, inAnexo := [], Some(EmentaEntry("")), NO_CONTEXT, false;
    ghost var st := START;
    assert lines[..0] == [];
    EmptyBody();
    for i := 0 to |lines|
      invariant st == Run(lines[..i], Reader(space, patterns), Blank(space))
      invariant out == Entries(space, st.out) && IsRaw(cur, st.cur) && ctx == st.context && inAnexo == st.inAnexo
    {
      var line := lines[i];
      assert lines[..i + 1][..i] == lines[..i];
      var k := patterns(Trim(space, line));
      out, cur, ctx, inAnexo := Step(space, out, cur, ctx, inAnexo, k, line, st);
      st := Turn(st, k, line, Blank(space));
    }
    assert lines[..|lines|] == lines;
    r := Flush(space, out, cur, st.out, st.cur);
    var hasContent := false;
    for i := 0 to |r|
      invariant hasContent <==> exists j :: 0 <= j < i && !r[j].EmentaEntry?
    {
      if !r[i].EmentaEntry? {
        hasContent := true;
      }
    }
    ghost var sections := Sections(lines, Reader(space, patterns), Blank(space));
    assert r == Entries(space, sections);
    assert forall j :: 0 <= j < |r| ==> (r[j].EmentaEntry? <==> sections[j].Ementa?);
    if !hasContent {
      r := [];
    }
  }

  lemma EmptyBody()
    ensures Raw(Ementa([])) == EmentaEntry("")
    ensures forall n :: Raw(Anexo(n, [])) == AnexoEntry(n, "")
    ensures forall n, c, line :: Raw(Article(n, c, [line])) == ArticleEntry(n, c, line + ['\n'])
  {
    forall line: string ensures Body([line]) == line + ['\n'] {
      assert [line][..0] == [];
    }
  }

  /** One line: flush, start, or append. */
  method Step(space: Space, out: seq<Entry>, cur: Option<Entry>, ctx: Context, inAnexo: bool, k: Kind, line: string, ghost st: State)
    returns (out': seq<Entry>, cur': Option<Entry>, ctx': Context, inAnexo': bool)
    requires SpaceOk(space)
    requires out == Entries(space, st.out) && IsRaw(cur, st.cur) && ctx == st.context && inAnexo == st.inAnexo
    ensures
      var after := Turn(st, k, line, Blank(space));
      out' == Entries(space, after.out) && IsRaw(cur', after.cur) && ctx' == after.context && inAnexo' == after.inAnexo
  {
    hide Trim, Body, BlankText, Flushed;
    out', cur', ctx', inAnexo' := out, cur, ctx, inAnexo;
    EmptyBody();
    if cur.Some? {
      AppendIsRaw(st.cur.value, line);
    }
    hide Raw, WithLine, Append;
    if k.AnexoHead? {
      out' := Flush(space, out, cur, st.out, st.cur);
      inAnexo' := true;
      cur' := Some(AnexoEntry(k.number, ""));
    } else if inAnexo {
      if cur.Some? {
        cur' := Some(Append(cur.value, line));
      }
    } else if Structural(k) {
      out' := Flush(space, out, cur, st.out, st.cur);
      cur' := None;
      ctx' := NewContext(k, ctx);
    } else if k.ArticleHead? {
      out' := Flush(space, out, cur, st.out, st.cur);
      cur' := Some(ArticleEntry(k.number, ctx, line + ['\n']));
    } else if cur.Some? {
      cur' := Some(Append(cur.value, line));
    }
  }
}
