/** Where the sections of a statute come from: each is a stretch of the lines, the
    stretches ascend, and the lines outside them are known (internal/ingest/legislation.go). */
module StatuteSpans {
  import opened Statute

  /** The lines from `first` up to `end`. */
  datatype Span = Span(first: nat, end: nat)

  ghost predicate Holds(sp: Span, i: nat) {
    sp.first <= i < sp.end
  }

  ghost predicate NoHeading(lines: seq<string>, classify: Classify, from: nat, to: nat)
    requires to <= |lines|
  {
    forall j: nat :: from <= j < to ==> !Marks(lines, classify, j)
  }

  /** The name at this place is that of the latest heading of the level that no later
      heading reset, or empty when there is none. */
  ghost predicate Named(lines: seq<string>, classify: Classify, i: nat, level: nat, name: string)
    requires i <= |lines|
  {
    || (exists j: nat :: IsLatest(lines, classify, i, level, j) && name == NameOf(classify(lines[j])))
    || (name == "" && forall j: nat :: !IsLatest(lines, classify, i, level, j))
  }

  ghost predicate FiveNames(lines: seq<string>, classify: Classify, i: nat, c: Context)
    requires i <= |lines|
  {
    && Named(lines, classify, i, 0, c.livro) && Named(lines, classify, i, 1, c.titulo)
    && Named(lines, classify, i, 2, c.capitulo) && Named(lines, classify, i, 3, c.secao)
    && Named(lines, classify, i, 4, c.subsecao)
  }

  /** The section is this stretch, which runs to the next heading or to the end: an ementa
      from the first line on, an article from its heading on, an anexo after its heading. */
  ghost predicate Stretch(lines: seq<string>, classify: Classify, s: Section, sp: Span) {
    && sp.first <= sp.end <= |lines| && s.lines == lines[sp.first..sp.end]
    && (sp.end < |lines| ==> Marks(lines, classify, sp.end))
    && match s
       case Ementa(_) => sp.first == 0 && NoHeading(lines, classify, 0, sp.end)
       case Article(n, _, _) =>
         && sp.first < sp.end && Marks(lines, classify, sp.first) && classify(lines[sp.first]) == ArticleHead(n)
         && NoHeading(lines, classify, sp.first + 1, sp.end)
       case Anexo(n, _) =>
         0 < sp.first && classify(lines[sp.first - 1]) == AnexoHead(n) && NoHeading(lines, classify, sp.first, sp.end)
  }

  /** Where the first heading is, or the end. */
  function FirstMark(lines: seq<string>, classify: Classify, from: nat): (f: nat)
    requires from <= |lines|
    ensures from <= f <= |lines|
    ensures NoHeading(lines, classify, from, f)
    ensures f < |lines| ==> Marks(lines, classify, f)
    decreases |lines| - from
  {
    if from == |lines| || Marks(lines, classify, from) then from else FirstMark(lines, classify, from + 1)
  }

  /** The lines of no section: headings other than those of articles, the lines that follow
      a structural heading up to the next heading, and an opening without any text. */
  ghost predicate Dropped(lines: seq<string>, classify: Classify, blank: string -> bool, i: nat)
    requires i < |lines|
  {
    var m := MarkBefore(lines, classify, i + 1);
    if m < 0 then BlankText(lines[..FirstMark(lines, classify, 0)], blank)
    else if m == i then !classify(lines[i]).ArticleHead?
    else Structural(classify(lines[m]))
  }

  // ---- the stretches

  function OwnSpan(lines: seq<string>, classify: Classify, e: nat): seq<Span>
    requires e < |lines|
  {
    var k := classify(lines[e]);
    if k.AnexoHead? then [Span(e + 1, |lines|)]
    else if k.ArticleHead? then [Span(e, |lines|)]
    else []
  }

  function Spans(lines: seq<string>, classify: Classify, blank: string -> bool): seq<Span>
    decreases |lines|
  {
    var e := LastMark(lines, classify);
    if e < 0 then if BlankText(lines, blank) then [] else [Span(0, |lines|)]
    else Spans(lines[..e], classify, blank) + OwnSpan(lines, classify, e)
  }

  /** What is proved of the stretches by induction. The context of an article is still the
      one its place gives it. */
  ghost predicate Placed(lines: seq<string>, classify: Classify, sections: seq<Section>, spans: seq<Span>) {
    && |sections| == |spans|
    && (forall k :: 0 <= k < |spans| ==> Stretch(lines, classify, sections[k], spans[k]))
    && (forall k :: 0 <= k < |spans| ==> InContext(lines, classify, sections[k], spans[k]))
    && forall k, l :: 0 <= k < l < |spans| ==> spans[k].end <= spans[l].first
  }

  ghost predicate InContext(lines: seq<string>, classify: Classify, s: Section, sp: Span) {
    s.Article? ==> sp.first <= |lines| && s.context == ContextAt(lines, classify, sp.first)
  }

  lemma PrefixNoHeading(lines: seq<string>, classify: Classify, n: nat, from: nat, to: nat)
    requires to <= n <= |lines|
    ensures NoHeading(lines[..n], classify, from, to) == NoHeading(lines, classify, from, to)
  {
    forall j: nat | j < n ensures Marks(lines[..n], classify, j) == Marks(lines, classify, j) {
      PrefixMarks(lines, classify, n, j);
    }
    hide Marks;
  }

  /** A stretch of the lines before a heading is one of all lines. */
  lemma PrefixStretch(lines: seq<string>, classify: Classify, e: nat, s: Section, sp: Span)
    requires e < |lines| && Marks(lines, classify, e)
    requires Stretch(lines[..e], classify, s, sp) && InContext(lines[..e], classify, s, sp)
    ensures Stretch(lines, classify, s, sp) && InContext(lines, classify, s, sp)
  {
    hide Marks, NoHeading, ContextAt;
    assert lines[..e][sp.first..sp.end] == lines[sp.first..sp.end];
    PrefixContext(lines, classify, e, sp.first);
    PrefixNoHeading(lines, classify, e, 0, sp.end);
    PrefixNoHeading(lines, classify, e, sp.first, sp.end);
    PrefixNoHeading(lines, classify, e, sp.first + 1, sp.end);
    if sp.end < e {
      PrefixMarks(lines, classify, e, sp.end);
    }
    if sp.first < e {
      PrefixMarks(lines, classify, e, sp.first);
    }
  }

  /** The section of the last heading is the stretch behind it. */
  lemma OwnStretch(lines: seq<string>, classify: Classify, e: nat)
    requires e < |lines| && LastMark(lines, classify) == e
    ensures |OwnSection(lines, classify, e)| == |OwnSpan(lines, classify, e)| <= 1
    ensures OwnSpan(lines, classify, e) != [] ==>
      && Stretch(lines, classify, OwnSection(lines, classify, e)[0], OwnSpan(lines, classify, e)[0])
      && InContext(lines, classify, OwnSection(lines, classify, e)[0], OwnSpan(lines, classify, e)[0])
      && e <= OwnSpan(lines, classify, e)[0].first
  {
    hide ContextAt;
    assert lines[e..|lines|] == lines[e..] && lines[e + 1..|lines|] == lines[e + 1..];
    assert Marks(lines, classify, e);
    assert NoHeading(lines, classify, e + 1, |lines|);
    hide Marks, NoHeading, MarkBefore;
  }

  lemma {:induction false} SplitPlaced(lines: seq<string>, classify: Classify, blank: string -> bool)
    ensures Placed(lines, classify, Split(lines, classify, blank), Spans(lines, classify, blank))
    ensures forall k :: 0 <= k < |Spans(lines, classify, blank)| ==> Spans(lines, classify, blank)[k].end <= |lines|
    decreases |lines|
  {
    hide ContextAt, OwnSection, OwnSpan, InContext;
    var e := LastMark(lines, classify);
    if e < 0 {
      OpeningPlaced(lines, classify, blank);
    } else {
      SplitPlaced(lines[..e], classify, blank);
      OwnStretch(lines, classify, e);
      var sections, spans := Split(lines[..e], classify, blank), Spans(lines[..e], classify, blank);
      forall k | 0 <= k < |spans|
        ensures Stretch(lines, classify, sections[k], spans[k]) && InContext(lines, classify, sections[k], spans[k])
      {
        PrefixStretch(lines, classify, e, sections[k], spans[k]);
      }
      hide Stretch, Marks, LastMark, Split, Spans;
      PlacedMore(lines, classify, sections, spans, OwnSection(lines, classify, e), OwnSpan(lines, classify, e), e);
      SplitUnroll(lines, classify, blank, e);
    }
  }

  lemma OpeningPlaced(lines: seq<string>, classify: Classify, blank: string -> bool)
    requires LastMark(lines, classify) < 0
    ensures Placed(lines, classify, Split(lines, classify, blank), Spans(lines, classify, blank))
    ensures forall k :: 0 <= k < |Spans(lines, classify, blank)| ==> Spans(lines, classify, blank)[k].end <= |lines|
  {
    assert lines[0..|lines|] == lines;
    assert NoHeading(lines, classify, 0, |lines|);
    hide Marks, NoHeading, MarkBefore, BlankText;
  }

  lemma SplitUnroll(lines: seq<string>, classify: Classify, blank: string -> bool, e: nat)
    requires e < |lines| && LastMark(lines, classify) == e
    ensures Split(lines, classify, blank) == Split(lines[..e], classify, blank) + OwnSection(lines, classify, e)
    ensures Spans(lines, classify, blank) == Spans(lines[..e], classify, blank) + OwnSpan(lines, classify, e)
  {
    hide LastMark, OwnSection, OwnSpan;
  }

  lemma PlacedMore(lines: seq<string>, classify: Classify, sections: seq<Section>, spans: seq<Span>,
                   own: seq<Section>, ownSpan: seq<Span>, e: nat)
    requires |sections| == |spans| && |own| == |ownSpan| <= 1
    requires forall k :: 0 <= k < |spans| ==> Stretch(lines, classify, sections[k], spans[k])
    requires forall k :: 0 <= k < |spans| ==> InContext(lines, classify, sections[k], spans[k])
    requires forall k, l :: 0 <= k < l < |spans| ==> spans[k].end <= spans[l].first
    requires forall k :: 0 <= k < |spans| ==> spans[k].end <= e
    requires ownSpan != [] ==>
      Stretch(lines, classify, own[0], ownSpan[0]) && InContext(lines, classify, own[0], ownSpan[0]) && e <= ownSpan[0].first
    ensures Placed(lines, classify, sections + own, spans + ownSpan)
    ensures forall k :: 0 <= k < |spans + ownSpan| ==> (spans + ownSpan)[k].end <= |lines|
  {
    hide InContext, Marks, NoHeading;
    forall k | 0 <= k < |spans + ownSpan| ensures (spans + ownSpan)[k].end <= |lines| {
      assert Stretch(lines, classify, (sections + own)[k], (spans + ownSpan)[k]);
    }
    hide Stretch;
  }

  // ---- the lines outside

  ghost predicate InSome(spans: seq<Span>, i: nat) {
    exists k :: 0 <= k < |spans| && Holds(spans[k], i)
  }

  lemma InSomeConcat(a: seq<Span>, b: seq<Span>, i: nat)
    ensures InSome(a + b, i) <==> InSome(a, i) || InSome(b, i)
  {
    hide Holds;
    if InSome(a, i) {
      var k :| 0 <= k < |a| && Holds(a[k], i);
      assert Holds((a + b)[k], i);
    }
    if InSome(b, i) {
      var k :| 0 <= k < |b| && Holds(b[k], i);
      assert Holds((a + b)[|a| + k], i);
    }
    if InSome(a + b, i) {
      var k :| 0 <= k < |a + b| && Holds((a + b)[k], i);
      assert k < |a| ==> Holds(a[k], i);
      assert k >= |a| ==> Holds(b[k - |a|], i);
    }
  }

  /** Before a heading, what is dropped of all lines is what is dropped of those before it. */
  lemma PrefixDropped(lines: seq<string>, classify: Classify, blank: string -> bool, e: nat, i: nat)
    requires i < e < |lines| && Marks(lines, classify, e)
    ensures Dropped(lines[..e], classify, blank, i) == Dropped(lines, classify, blank, i)
  {
    SameMark(lines, classify, e, i + 1);
    var f, g := FirstMark(lines, classify, 0), FirstMark(lines[..e], classify, 0);
    PrefixFirst(lines, classify, e);
    assert f == g && lines[..e][..f] == lines[..f];
    hide Marks, MarkBefore, FirstMark, BlankText, NoHeading;
  }

  lemma PrefixFirst(lines: seq<string>, classify: Classify, e: nat)
    requires e < |lines| && Marks(lines, classify, e)
    ensures FirstMark(lines[..e], classify, 0) == FirstMark(lines, classify, 0)
  {
    hide Marks, FirstMark;
    var f, g := FirstMark(lines, classify, 0), FirstMark(lines[..e], classify, 0);
    PrefixNoHeading(lines, classify, e, 0, g);
    if g < e {
      PrefixMarks(lines, classify, e, g);
    }
  }

  /** From the last heading on. */
  lemma OwnDropped(lines: seq<string>, classify: Classify, blank: string -> bool, e: nat, i: nat)
    requires e <= i < |lines| && LastMark(lines, classify) == e
    ensures InSome(OwnSpan(lines, classify, e), i) <==> !Dropped(lines, classify, blank, i)
  {
    assert MarkBefore(lines, classify, i + 1) == e;
    var own := OwnSpan(lines, classify, e);
    assert own != [] ==> InSome(own, i) == Holds(own[0], i);
    assert Marks(lines, classify, e);
    NotPlain(lines, classify, e);
    hide Marks, MarkBefore, LastMark, BlankText, FirstMark;
  }

  lemma NotPlain(lines: seq<string>, classify: Classify, e: nat)
    requires e < |lines| && Marks(lines, classify, e)
    ensures classify(lines[e]).AnexoHead? || classify(lines[e]).ArticleHead? || Structural(classify(lines[e]))
  {
    hide AnexoBefore;
  }

  lemma NotHeld(spans: seq<Span>, i: nat)
    requires forall k :: 0 <= k < |spans| ==> spans[k].end <= i
    ensures !InSome(spans, i)
  {
  }

  lemma {:induction false} InSomeIffKept(lines: seq<string>, classify: Classify, blank: string -> bool, i: nat)
    requires i < |lines|
    ensures InSome(Spans(lines, classify, blank), i) <==> !Dropped(lines, classify, blank, i)
    decreases |lines|
  {
    var e := LastMark(lines, classify);
    if e < 0 {
      OpeningKept(lines, classify, blank, i);
    } else {
      SplitUnroll(lines, classify, blank, e);
      SplitPlaced(lines[..e], classify, blank);
      assert Marks(lines, classify, e);
      hide Dropped, Spans, LastMark, OwnSpan, Placed, Marks, InSome;
      InSomeConcat(Spans(lines[..e], classify, blank), OwnSpan(lines, classify, e), i);
      if i < e {
        InSomeIffKept(lines[..e], classify, blank, i);
        PrefixDropped(lines, classify, blank, e, i);
        BehindHeading(lines, classify, e, i);
      } else {
        NotHeld(Spans(lines[..e], classify, blank), i);
        OwnDropped(lines, classify, blank, e, i);
      }
    }
  }

  lemma BehindHeading(lines: seq<string>, classify: Classify, e: nat, i: nat)
    requires i < e < |lines|
    ensures !InSome(OwnSpan(lines, classify, e), i)
  {
  }

  lemma OpeningKept(lines: seq<string>, classify: Classify, blank: string -> bool, i: nat)
    requires i < |lines| && LastMark(lines, classify) < 0
    ensures InSome(Spans(lines, classify, blank), i) <==> !Dropped(lines, classify, blank, i)
  {
    assert MarkBefore(lines, classify, i + 1) < 0;
    var f := FirstMark(lines, classify, 0);
    assert f == |lines| && lines[..f] == lines;
    hide Marks, MarkBefore, FirstMark, BlankText;
    if Spans(lines, classify, blank) != [] {
      assert Holds(Spans(lines, classify, blank)[0], i);
    }
  }

  // ---- the theorems

  lemma ContextNames(lines: seq<string>, classify: Classify, i: nat)
    requires i <= |lines|
    ensures FiveNames(lines, classify, i, ContextAt(lines, classify, i))
  {
    hide NameAt, IsLatest;
    var _ := NameIsNamed(lines, classify, i, 0);
    var _ := NameIsNamed(lines, classify, i, 1);
    var _ := NameIsNamed(lines, classify, i, 2);
    var _ := NameIsNamed(lines, classify, i, 3);
    var _ := NameIsNamed(lines, classify, i, 4);
  }

  lemma NameIsNamed(lines: seq<string>, classify: Classify, i: nat, level: nat) returns (j: int)
    requires i <= |lines|
    ensures Named(lines, classify, i, level, NameAt(lines, classify, i, level))
  {
    hide NameAt, IsLatest;
    j := NameIsLatest(lines, classify, i, level);
    if j < 0 {
      forall m: nat ensures !IsLatest(lines, classify, i, level, m) {
        assert IsLatest(lines, classify, i, level, m) ==> m == j;
      }
    }
  }

  /** Every section is a stretch of the lines, the stretches ascend without overlap, each
      article carries the names of its latest headings, and a line is in one of the
      stretches exactly when it is not one of the dropped. */
  lemma EveryLineOnce(lines: seq<string>, classify: Classify, blank: string -> bool) returns (spans: seq<Span>)
    ensures |spans| == |Sections(lines, classify, blank)|
    ensures forall k :: 0 <= k < |spans| ==> Stretch(lines, classify, Sections(lines, classify, blank)[k], spans[k])
    ensures forall k :: 0 <= k < |spans| && Sections(lines, classify, blank)[k].Article? ==>
      spans[k].first <= |lines| && FiveNames(lines, classify, spans[k].first, Sections(lines, classify, blank)[k].context)
    ensures forall k, l :: 0 <= k < l < |spans| ==> spans[k].end <= spans[l].first
    ensures forall i: nat :: i < |lines| ==> (InSome(spans, i) <==> !Dropped(lines, classify, blank, i))
  {
    SectionsAreSplit(lines, classify, blank);
    SplitPlaced(lines, classify, blank);
    spans := Spans(lines, classify, blank);
    hide Sections, Split, Spans, Stretch, FiveNames, ContextAt, Dropped, InSome;
    forall k | 0 <= k < |spans| && Sections(lines, classify, blank)[k].Article?
      ensures spans[k].first <= |lines| && FiveNames(lines, classify, spans[k].first, Sections(lines, classify, blank)[k].context)
    {
      assert InContext(lines, classify, Sections(lines, classify, blank)[k], spans[k]);
      ContextNames(lines, classify, spans[k].first);
    }
    forall i: nat | i < |lines| ensures InSome(spans, i) <==> !Dropped(lines, classify, blank, i) {
      InSomeIffKept(lines, classify, blank, i);
    }
  }

  /** No article is lost: every heading of an article, outside the anexos, opens one of the
      sections, with its number. */
  lemma EveryArticleFound(lines: seq<string>, classify: Classify, blank: string -> bool, j: nat) returns (spans: seq<Span>, k: nat)
    requires j < |lines| && Marks(lines, classify, j) && classify(lines[j]).ArticleHead?
    ensures k < |Sections(lines, classify, blank)| == |spans| && spans[k].first == j
    ensures Stretch(lines, classify, Sections(lines, classify, blank)[k], spans[k])
    ensures
      var s := Sections(lines, classify, blank)[k];
      s.Article? && s.number == classify(lines[j]).number
  {
    spans := EveryLineOnce(lines, classify, blank);
    HeadingKept(lines, classify, blank, j);
    hide Sections, Dropped, Marks;
    k :| 0 <= k < |spans| && Holds(spans[k], j);
  }

  lemma HeadingKept(lines: seq<string>, classify: Classify, blank: string -> bool, j: nat)
    requires j < |lines| && Marks(lines, classify, j) && classify(lines[j]).ArticleHead?
    ensures !Dropped(lines, classify, blank, j)
  {
    hide Marks, BlankText, FirstMark;
  }

  lemma {:induction false} AnexoKept(lines: seq<string>, classify: Classify, blank: string -> bool, j: nat) returns (k: nat)
    requires j < |lines| && classify(lines[j]).AnexoHead?
    ensures k < |Split(lines, classify, blank)| && k < |Spans(lines, classify, blank)|
    ensures Split(lines, classify, blank)[k].Anexo? && Spans(lines, classify, blank)[k].first == j + 1
    decreases |lines|
  {
    hide MarkBefore, AnexoBefore, ContextAt;
    assert Marks(lines, classify, j);
    var e := LastMark(lines, classify);
    SplitPlaced(lines[..e], classify, blank);
    SplitUnroll(lines, classify, blank, e);
    hide Split, Spans, LastMark, Marks, Stretch, InContext;
    if e == j {
      k := |Split(lines[..e], classify, blank)|;
    } else {
      assert lines[..e][j] == lines[j];
      k := AnexoKept(lines[..e], classify, blank, j);
    }
  }

  /** No anexo is lost either, not even an empty one: every heading of an anexo has a
      section that begins on the next line, with its number. */
  lemma EveryAnexoFound(lines: seq<string>, classify: Classify, blank: string -> bool, j: nat) returns (spans: seq<Span>, k: nat)
    requires j < |lines| && classify(lines[j]).AnexoHead?
    ensures k < |Sections(lines, classify, blank)| == |spans| && spans[k].first == j + 1
    ensures Stretch(lines, classify, Sections(lines, classify, blank)[k], spans[k])
    ensures
      var s := Sections(lines, classify, blank)[k];
      s.Anexo? && s.number == classify(lines[j]).number
  {
    hide Marks, Split, Spans, Sections, NoHeading;
    SectionsAreSplit(lines, classify, blank);
    SplitPlaced(lines, classify, blank);
    spans := Spans(lines, classify, blank);
    k := AnexoKept(lines, classify, blank, j);
  }

  /** A text is a statute exactly when it has an anexo or an article outside the anexos;
      then every section is kept. */
  lemma ParsedIff(lines: seq<string>, classify: Classify, blank: string -> bool)
    ensures Parsed(lines, classify, blank) ==
      if exists j: nat :: j < |lines| && Marks(lines, classify, j) && (classify(lines[j]).ArticleHead? || classify(lines[j]).AnexoHead?)
      then Sections(lines, classify, blank) else []
  {
    hide Marks, Sections;
    var sections := Sections(lines, classify, blank);
    if exists i :: 0 <= i < |sections| && !sections[i].Ementa? {
      var i :| 0 <= i < |sections| && !sections[i].Ementa?;
      var spans := EveryLineOnce(lines, classify, blank);
      assert Stretch(lines, classify, sections[i], spans[i]);
      AnexosMark(lines, classify);
    }
    if j: nat :| j < |lines| && Marks(lines, classify, j) && classify(lines[j]).ArticleHead? {
      var spans, k := EveryArticleFound(lines, classify, blank, j);
    } else if j: nat :| j < |lines| && Marks(lines, classify, j) && classify(lines[j]).AnexoHead? {
      var spans, k := EveryAnexoFound(lines, classify, blank, j);
    }
  }

  lemma AnexosMark(lines: seq<string>, classify: Classify)
    ensures forall j: nat :: j < |lines| && classify(lines[j]).AnexoHead? ==> Marks(lines, classify, j)
  {
  }
}
