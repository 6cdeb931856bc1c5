/** Splitting a statute into sections (internal/ingest/legislation.go). */
module Statute {
  import opened Wrappers

  /** What a line is, as the heading patterns see it once trimmed. */
  datatype Kind =
    | AnexoHead(number: string)
    | LivroHead(name: string)
    | TituloHead(name: string)
    | CapituloHead(name: string)
    | SecaoHead(name: string)
    | SubsecaoHead(name: string)
    | ArticleHead(number: string)
    | Plain

  type Classify = string -> Kind

  datatype Context = Context(livro: string, titulo: string, capitulo: string, secao: string, subsecao: string)

  const NO_CONTEXT := Context("", "", "", "", "")

  datatype Section =
    | Ementa(lines: seq<string>)
    | Article(number: string, context: Context, lines: seq<string>)
    | Anexo(number: string, lines: seq<string>)

  // ---- the loop, as a function of the state it carries

  datatype State = State(out: seq<Section>, cur: Option<Section>, context: Context, inAnexo: bool)

  const START := State([], Some(Ementa([])), NO_CONTEXT, false)

  function WithLine(s: Section, line: string): Section {
    match s
    case Ementa(lines) => Ementa(lines + [line])
    case Article(n, c, lines) => Article(n, c, lines + [line])
    case Anexo(n, lines) => Anexo(n, lines + [line])
  }

  predicate BlankText(lines: seq<string>, blank: string -> bool) {
    forall i :: 0 <= i < |lines| ==> blank(lines[i])
  }

  /** Ends the current section; an ementa without text is forgotten. */
  function Flushed(out: seq<Section>, cur: Option<Section>, blank: string -> bool): seq<Section> {
    match cur
    case None => out
    case Some(s) => if s.Ementa? && BlankText(s.lines, blank) then out else out + [s]
  }

  function NewContext(k: Kind, c: Context): Context {
    match k
    case LivroHead(x) => Context(x, "", "", "", "")
    case TituloHead(x) => Context(c.livro, x, "", "", "")
    case CapituloHead(x) => Context(c.livro, c.titulo, x, "", "")
    case SecaoHead(x) => Context(c.livro, c.titulo, c.capitulo, x, "")
    case SubsecaoHead(x) => Context(c.livro, c.titulo, c.capitulo, c.secao, x)
    case _ => c
  }

  predicate Structural(k: Kind) {
    k.LivroHead? || k.TituloHead? || k.CapituloHead? || k.SecaoHead? || k.SubsecaoHead?
  }

  function Turn(st: State, k: Kind, line: string, blank: string -> bool): State {
    if k.AnexoHead? then State(Flushed(st.out, st.cur, blank), Some(Anexo(k.number, [])), st.context, true)
    else if st.inAnexo then st.(cur := match st.cur case Some(s) => Some(WithLine(s, line)) case None => None)
    else if Structural(k) then State(Flushed(st.out, st.cur, blank), None, NewContext(k, st.context), false)
    else if k.ArticleHead? then
      State(Flushed(st.out, st.cur, blank), Some(Article(k.number, st.context, [line])), st.context, false)
    else st.(cur := match st.cur case Some(s) => Some(WithLine(s, line)) case None => None)
  }

  function Run(lines: seq<string>, classify: Classify, blank: string -> bool): State {
    if lines == [] then START
    else
      var last := lines[|lines| - 1];
      Turn(Run(lines[..|lines| - 1], classify, blank), classify(last), last, blank)
  }

  function Sections(lines: seq<string>, classify: Classify, blank: string -> bool): seq<Section> {
    var st := Run(lines, classify, blank);
    Flushed(st.out, st.cur, blank)
  }

  /** Nothing but an ementa is no statute. */
  function Parsed(lines: seq<string>, classify: Classify, blank: string -> bool): seq<Section> {
    var sections := Sections(lines, classify, blank);
    if exists i :: 0 <= i < |sections| && !sections[i].Ementa? then sections else []
  }

  // ---- the same, said by the headings

  predicate AnexoBefore(lines: seq<string>, classify: Classify, i: nat)
    requires i <= |lines|
  {
    exists j :: 0 <= j < i && classify(lines[j]).AnexoHead?
  }

  /** A heading, unless it stands inside an anexo, where only anexos are headings. */
  predicate Marks(lines: seq<string>, classify: Classify, j: nat)
    requires j < |lines|
  {
    classify(lines[j]) != Plain && (classify(lines[j]).AnexoHead? || !AnexoBefore(lines, classify, j))
  }

  /** The last heading, or -1. */
  function LastMark(lines: seq<string>, classify: Classify): (e: int)
    ensures -1 <= e < |lines|
    ensures e >= 0 ==> Marks(lines, classify, e)
    ensures forall j: nat :: e < j < |lines| ==> !Marks(lines, classify, j)
  {
    MarkBefore(lines, classify, |lines|)
  }

  function MarkBefore(lines: seq<string>, classify: Classify, n: nat): (e: int)
    requires n <= |lines|
    ensures -1 <= e < n
    ensures e >= 0 ==> Marks(lines, classify, e)
    ensures forall j: nat :: e < j < n ==> !Marks(lines, classify, j)
  {
    if n == 0 then -1 else if Marks(lines, classify, n - 1) then n - 1 else MarkBefore(lines, classify, n - 1)
  }

  /** Livro 0, Título 1, Capítulo 2, Seção 3, Subseção 4. */
  function Level(k: Kind): nat
    requires Structural(k)
  {
    match k
    case LivroHead(_) => 0
    case TituloHead(_) => 1
    case CapituloHead(_) => 2
    case SecaoHead(_) => 3
    case SubsecaoHead(_) => 4
  }

  /** A structural heading of this level or a higher one, outside the anexos. */
  predicate Resets(lines: seq<string>, classify: Classify, j: nat, level: nat)
    requires j < |lines|
  {
    var k := classify(lines[j]);
    Structural(k) && !AnexoBefore(lines, classify, j) && Level(k) <= level
  }

  function NameOf(k: Kind): string {
    if Structural(k) then k.name else ""
  }

  /** The name of the latest heading of the level before `i`, if no heading of a higher
      level came after it. */
  function NameAt(lines: seq<string>, classify: Classify, i: nat, level: nat): string
    requires i <= |lines|
  {
    if i == 0 then ""
    else if Resets(lines, classify, i - 1, level) then
      var k := classify(lines[i - 1]);
      if Level(k) == level then NameOf(k) else ""
    else NameAt(lines, classify, i - 1, level)
  }

  function ContextAt(lines: seq<string>, classify: Classify, i: nat): Context
    requires i <= |lines|
  {
    Context(NameAt(lines, classify, i, 0), NameAt(lines, classify, i, 1), NameAt(lines, classify, i, 2),
      NameAt(lines, classify, i, 3), NameAt(lines, classify, i, 4))
  }

  /** What the section of the last heading `e` is, up to the end. */
  function OwnSection(lines: seq<string>, classify: Classify, e: nat): seq<Section>
    requires e < |lines|
  {
    var k := classify(lines[e]);
    if k.AnexoHead? then [Anexo(k.number, lines[e + 1..])]
    else if k.ArticleHead? then [Article(k.number, ContextAt(lines, classify, e), lines[e..])]
    else []
  }

  /** The sections before the last heading, then its own. */
  function Split(lines: seq<string>, classify: Classify, blank: string -> bool): seq<Section>
    decreases |lines|
  {
    var e := LastMark(lines, classify);
    if e < 0 then if BlankText(lines, blank) then [] else [Ementa(lines)]
    else Split(lines[..e], classify, blank) + OwnSection(lines, classify, e)
  }

  // ---- headings of a prefix

  lemma PrefixAnexo(lines: seq<string>, classify: Classify, n: nat, i: nat)
    requires i <= n <= |lines|
    ensures AnexoBefore(lines[..n], classify, i) == AnexoBefore(lines, classify, i)
  {
    if AnexoBefore(lines, classify, i) {
      var j :| 0 <= j < i && classify(lines[j]).AnexoHead?;
      assert lines[..n][j] == lines[j];
    }
  }

  lemma PrefixMarks(lines: seq<string>, classify: Classify, n: nat, j: nat)
    requires j < n <= |lines|
    ensures Marks(lines[..n], classify, j) == Marks(lines, classify, j)
    ensures forall level: nat :: Resets(lines[..n], classify, j, level) == Resets(lines, classify, j, level)
  {
    PrefixAnexo(lines, classify, n, j);
    hide AnexoBefore;
  }

  lemma {:induction false} PrefixName(lines: seq<string>, classify: Classify, n: nat, i: nat, level: nat)
    requires i <= n <= |lines|
    ensures NameAt(lines[..n], classify, i, level) == NameAt(lines, classify, i, level)
    decreases i
  {
    if i > 0 {
      PrefixMarks(lines, classify, n, i - 1);
      hide Resets, Marks;
      PrefixName(lines, classify, n, i - 1, level);
    }
  }

  lemma PrefixContext(lines: seq<string>, classify: Classify, n: nat, i: nat)
    requires i <= n <= |lines|
    ensures ContextAt(lines[..n], classify, i) == ContextAt(lines, classify, i)
  {
    hide NameAt;
    PrefixName(lines, classify, n, i, 0);
    PrefixName(lines, classify, n, i, 1);
    PrefixName(lines, classify, n, i, 2);
    PrefixName(lines, classify, n, i, 3);
    PrefixName(lines, classify, n, i, 4);
  }

  /** The context moves on with each heading. */
  lemma ContextNext(lines: seq<string>, classify: Classify, i: nat)
    requires i < |lines|
    ensures ContextAt(lines, classify, i + 1) ==
      if Structural(classify(lines[i])) && !AnexoBefore(lines, classify, i)
      then NewContext(classify(lines[i]), ContextAt(lines, classify, i)) else ContextAt(lines, classify, i)
  {
    hide AnexoBefore;
  }

  lemma {:induction false} SameMark(lines: seq<string>, classify: Classify, n: nat, m: nat)
    requires m <= n <= |lines|
    ensures MarkBefore(lines[..n], classify, m) == MarkBefore(lines, classify, m)
    decreases m
  {
    if m > 0 {
      PrefixMarks(lines, classify, n, m - 1);
      hide Marks;
      SameMark(lines, classify, n, m - 1);
    }
  }

  /** The last heading of one more line. */
  lemma LastMarkNext(lines: seq<string>, classify: Classify)
    requires lines != []
    ensures
      var n := |lines| - 1;
      LastMark(lines, classify) == if Marks(lines, classify, n) then n else LastMark(lines[..n], classify)
  {
    SameMark(lines, classify, |lines| - 1, |lines| - 1);
    hide Marks;
  }

  // ---- the loop follows the headings

  /** The section that is open after `lines`. */
  function Open(lines: seq<string>, classify: Classify): Option<Section> {
    var e := LastMark(lines, classify);
    if e < 0 then Some(Ementa(lines))
    else
      var own := OwnSection(lines, classify, e);
      if own == [] then None else Some(own[0])
  }

  /** The sections that are done after `lines`. */
  function Done(lines: seq<string>, classify: Classify, blank: string -> bool): seq<Section> {
    var e := LastMark(lines, classify);
    if e < 0 then [] else Split(lines[..e], classify, blank)
  }

  lemma SplitIsFlushed(lines: seq<string>, classify: Classify, blank: string -> bool)
    ensures Split(lines, classify, blank) == Flushed(Done(lines, classify, blank), Open(lines, classify), blank)
  {
    hide LastMark, ContextAt;
  }

  ghost predicate Follows(st: State, lines: seq<string>, classify: Classify, blank: string -> bool) {
    && st.out == Done(lines, classify, blank)
    && st.cur == Open(lines, classify)
    && st.context == ContextAt(lines, classify, |lines|)
    && st.inAnexo == AnexoBefore(lines, classify, |lines|)
  }

  lemma AnexoNext(lines: seq<string>, classify: Classify)
    requires lines != []
    ensures
      var n := |lines| - 1;
      AnexoBefore(lines, classify, |lines|) <==> AnexoBefore(lines[..n], classify, n) || classify(lines[n]).AnexoHead?
    ensures AnexoBefore(lines, classify, |lines| - 1) == AnexoBefore(lines[..|lines| - 1], classify, |lines| - 1)
  {
    PrefixAnexo(lines, classify, |lines| - 1, |lines| - 1);
  }

  /** A heading ends what was open and opens its own section. */
  lemma MarkStep(st: State, lines: seq<string>, classify: Classify, blank: string -> bool)
    requires lines != [] && Follows(st, lines[..|lines| - 1], classify, blank) && Marks(lines, classify, |lines| - 1)
    ensures
      var r := Turn(st, classify(lines[|lines| - 1]), lines[|lines| - 1], blank);
      r.out == Done(lines, classify, blank) && r.cur == Open(lines, classify)
  {
    var n := |lines| - 1;
    LastMarkNext(lines, classify);
    AnexoNext(lines, classify);
    SplitIsFlushed(lines[..n], classify, blank);
    PrefixContext(lines, classify, n, n);
    assert lines[n..] == [lines[n]] && lines[n + 1..] == [];
    hide LastMark, ContextAt, AnexoBefore, Split, NewContext, Flushed, Open, Done;
    DoneAt(lines, classify, blank, n);
    OpenAt(lines, classify, n);
  }

  lemma DoneAt(lines: seq<string>, classify: Classify, blank: string -> bool, e: nat)
    requires e < |lines| && LastMark(lines, classify) == e
    ensures Done(lines, classify, blank) == Split(lines[..e], classify, blank)
  {
    hide LastMark, Split;
  }

  lemma OpenAt(lines: seq<string>, classify: Classify, e: nat)
    requires e < |lines| && LastMark(lines, classify) == e
    ensures Open(lines, classify) == if OwnSection(lines, classify, e) == [] then None else Some(OwnSection(lines, classify, e)[0])
  {
    hide LastMark, OwnSection;
  }

  /** Any other line goes to what is open. */
  lemma LineStep(st: State, lines: seq<string>, classify: Classify, blank: string -> bool)
    requires lines != [] && Follows(st, lines[..|lines| - 1], classify, blank) && !Marks(lines, classify, |lines| - 1)
    ensures
      var r := Turn(st, classify(lines[|lines| - 1]), lines[|lines| - 1], blank);
      r.out == Done(lines, classify, blank) && r.cur == Open(lines, classify)
  {
    hide LastMark, ContextAt, AnexoBefore, Split, NewContext, Flushed;
    var n := |lines| - 1;
    var e := LastMark(lines, classify);
    LastMarkNext(lines, classify);
    AnexoNext(lines, classify);
    if e >= 0 {
      PrefixContext(lines, classify, n, e);
      assert lines[..n][..e] == lines[..e];
      assert lines[e..] == lines[..n][e..] + [lines[n]] && lines[e + 1..] == lines[..n][e + 1..] + [lines[n]];
    } else {
      assert lines == lines[..n] + [lines[n]];
    }
  }

  lemma {:induction false} RunFollows(lines: seq<string>, classify: Classify, blank: string -> bool)
    ensures Follows(Run(lines, classify, blank), lines, classify, blank)
    decreases |lines|
  {
    if lines != [] {
      var n := |lines| - 1;
      var st := Run(lines[..n], classify, blank);
      RunFollows(lines[..n], classify, blank);
      if Marks(lines, classify, n) {
        MarkStep(st, lines, classify, blank);
      } else {
        LineStep(st, lines, classify, blank);
      }
      PrefixContext(lines, classify, n, n);
      ContextNext(lines, classify, n);
      AnexoNext(lines, classify);
      hide LastMark, ContextAt, AnexoBefore, Split, NewContext, Flushed, Done, Open;
    }
  }

  /** The loop finds what the recursion from the last heading backwards finds. */
  lemma SectionsAreSplit(lines: seq<string>, classify: Classify, blank: string -> bool)
    ensures Sections(lines, classify, blank) == Split(lines, classify, blank)
  {
    RunFollows(lines, classify, blank);
    SplitIsFlushed(lines, classify, blank);
    hide Run, Split, Done, Open, Flushed;
  }

  // ---- what follows

  /** The latest heading of a level before `i` that no heading of the level or a higher
      one follows. */
  ghost predicate IsLatest(lines: seq<string>, classify: Classify, i: nat, level: nat, j: nat)
    requires i <= |lines|
  {
    && j < i && Resets(lines, classify, j, level) && Level(classify(lines[j])) == level
    && forall k: nat :: j < k < i ==> !Resets(lines, classify, k, level)
  }

  /** The name at a place is that of the one latest heading, or empty when there is
      none. */
  lemma {:induction false} NameIsLatest(lines: seq<string>, classify: Classify, i: nat, level: nat) returns (j: int)
    requires i <= |lines|
    ensures -1 <= j < i
    ensures j >= 0 ==> IsLatest(lines, classify, i, level, j) && NameAt(lines, classify, i, level) == NameOf(classify(lines[j]))
    ensures j < 0 ==> NameAt(lines, classify, i, level) == ""
    ensures forall m: nat :: IsLatest(lines, classify, i, level, m) ==> m == j
    decreases i
  {
    hide AnexoBefore;
    if i == 0 {
      j := -1;
    } else if Resets(lines, classify, i - 1, level) {
      j := if Level(classify(lines[i - 1])) == level then i - 1 else -1;
      forall m: nat | m != i - 1 ensures !IsLatest(lines, classify, i, level, m) {
        assert m < i - 1 ==> m < i - 1 < i && Resets(lines, classify, i - 1, level);
      }
    } else {
      j := NameIsLatest(lines, classify, i - 1, level);
      forall m: nat | m != j ensures !IsLatest(lines, classify, i, level, m) {
        assert !IsLatest(lines, classify, i - 1, level, m);
        LatestBefore(lines, classify, i, level, m);
      }
      if j >= 0 {
        LatestBefore(lines, classify, i, level, j);
      }
    }
  }

  lemma LatestBefore(lines: seq<string>, classify: Classify, i: nat, level: nat, j: nat)
    requires 0 < i <= |lines| && !Resets(lines, classify, i - 1, level)
    ensures IsLatest(lines, classify, i, level, j) <==> IsLatest(lines, classify, i - 1, level, j)
  {
    if IsLatest(lines, classify, i - 1, level, j) {
      forall k: nat | j < k < i ensures !Resets(lines, classify, k, level) {
        assert k < i - 1 || k == i - 1;
      }
    }
    if IsLatest(lines, classify, i, level, j) {
      assert j != i - 1;
    }
  }

  lemma {:induction false} OnlyAnexosAfter(lines: seq<string>, classify: Classify, blank: string -> bool, a: nat) returns (head: seq<Section>, tail: seq<Section>)
    requires a < |lines| && classify(lines[a]).AnexoHead?
    ensures Split(lines, classify, blank) == head + tail && head == Split(lines[..a], classify, blank)
    ensures forall i :: 0 <= i < |tail| ==> tail[i].Anexo?
    decreases |lines|
  {
    var e := LastMark(lines, classify);
    assert Marks(lines, classify, a);
    hide ContextAt;
    if e == a {
      head, tail := Split(lines[..a], classify, blank), OwnSection(lines, classify, a);
    } else {
      assert lines[..e][a] == lines[a] && lines[..e][..a] == lines[..a];
      var rest;
      head, rest := OnlyAnexosAfter(lines[..e], classify, blank, a);
      tail := rest + OwnSection(lines, classify, e);
      assert AnexoBefore(lines, classify, e);
      assert classify(lines[e]).AnexoHead?;
      hide Split;
      assert head + rest + OwnSection(lines, classify, e) == head + tail;
    }
  }

  /** From the first anexo on there is no article: every section is an anexo. */
  lemma NoArticleAfterAnexo(lines: seq<string>, classify: Classify, blank: string -> bool, a: nat)
    requires a < |lines| && classify(lines[a]).AnexoHead?
    ensures exists head: seq<Section>, tail: seq<Section> ::
      && Sections(lines, classify, blank) == head + tail && head == Sections(lines[..a], classify, blank)
      && forall i :: 0 <= i < |tail| ==> tail[i].Anexo?
  {
    SectionsAreSplit(lines, classify, blank);
    SectionsAreSplit(lines[..a], classify, blank);
    hide Sections, Split;
    var head, tail := OnlyAnexosAfter(lines, classify, blank, a);
  }
}
