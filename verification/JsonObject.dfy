/** JSON texts as written (RFC 8259, sections 2 to 7), and what extractJSON makes of a
    reply that holds one. */
module JsonObject {
  import opened Wrappers
  import opened Bytes
  import opened JsonExtract

  /** One character of a string, as bytes: an escape or anything that needs none. */
  datatype Char = Plain(b: byte) | Escape(b: byte)

  /** A value as it is written, white space included. */
  datatype Json =
    | Literal(text: Text)
    | String(chars: seq<Char>)
    | Array(blank: Text, elements: seq<Element>)
    | Object(blank: Text, members: seq<Member>)

  datatype Element = Element(before: Text, value: Json, after: Text)

  datatype Member = Member(before: Text, key: seq<Char>, colon: Text, between: Text, value: Json, after: Text)

  predicate Blank(s: Text) {
    forall i :: 0 <= i < |s| ==> s[i] == 0x20 || s[i] == 0x09 || s[i] == 0x0A || s[i] == 0x0D
  }

  /** Numbers and the three names have neither quotes nor braces. */
  predicate Bare(s: Text) {
    forall i :: 0 <= i < |s| ==> s[i] != 0x22 && s[i] != 0x7B && s[i] != 0x7D
  }

  predicate CharsOk(chars: seq<Char>) {
    forall i :: 0 <= i < |chars| ==> chars[i].Plain? ==> chars[i].b != 0x22 && chars[i].b != 0x5C
  }

  predicate Ok(v: Json) {
    match v
    case Literal(text) => Bare(text)
    case String(chars) => CharsOk(chars)
    case Array(blank, elements) => Blank(blank) && ElementsOk(elements)
    case Object(blank, members) => Blank(blank) && MembersOk(members)
  }

  predicate ElementsOk(elements: seq<Element>) {
    elements == [] ||
    (Blank(elements[0].before) && Ok(elements[0].value) && Blank(elements[0].after) && ElementsOk(elements[1..]))
  }

  predicate MembersOk(members: seq<Member>) {
    members == [] ||
    (Blank(members[0].before) && CharsOk(members[0].key) && Blank(members[0].colon) && Blank(members[0].between) &&
     Ok(members[0].value) && Blank(members[0].after) && MembersOk(members[1..]))
  }

  function CharsText(chars: seq<Char>): Text {
    if chars == [] then []
    else (if chars[0].Plain? then [chars[0].b] else [0x5C, chars[0].b]) + CharsText(chars[1..])
  }

  function Quoted(chars: seq<Char>): Text {
    [0x22] + CharsText(chars) + [0x22]
  }

  function Written(v: Json): Text {
    match v
    case Literal(text) => text
    case String(chars) => Quoted(chars)
    case Array(blank, elements) => [0x5B] + (blank + ElementsText(elements)) + [0x5D]
    case Object(blank, members) => [0x7B] + (blank + MembersText(members)) + [0x7D]
  }

  function ElementsText(elements: seq<Element>): Text {
    if elements == [] then []
    else
      var e := elements[0];
      e.before + Written(e.value) + e.after + (if |elements| > 1 then [0x2C] else []) + ElementsText(elements[1..])
  }

  function MembersText(members: seq<Member>): Text {
    if members == [] then []
    else
      var m := members[0];
      m.before + Quoted(m.key) + m.colon + [0x3A] + m.between + Written(m.value) + m.after +
      (if |members| > 1 then [0x2C] else []) + MembersText(members[1..])
  }

  // ---- scanning a value

  /** The scan passes over `s` at any depth of at least one and comes out as it went in. */
  ghost predicate Neutral(s: Text) {
    forall d: nat, rest :: d > 0 ==> Span(State(d, false, false), s + rest) == Plus(Span(State(d, false, false), rest), |s|)
  }

  lemma SpanCons(st: State, c: byte, s: Text)
    ensures Span(st, [c] + s) == if Closes(st, c) then Some(1) else Plus(Span(Step(st, c), s), 1)
  {
    assert ([c] + s)[1..] == s;
    hide Closes, Step;
  }

  lemma NeutralNone()
    ensures Neutral([])
  {
    forall d: nat, rest: Text | d > 0
      ensures Span(State(d, false, false), [] + rest) == Plus(Span(State(d, false, false), rest), 0)
    {
      assert [] + rest == rest;
    }
  }

  lemma NeutralConcat(a: Text, b: Text)
    requires Neutral(a) && Neutral(b)
    ensures Neutral(a + b)
  {
    hide Span;
    forall d: nat, rest: Text | d > 0
      ensures Span(State(d, false, false), a + b + rest) == Plus(Span(State(d, false, false), rest), |a + b|)
    {
      assert a + b + rest == a + (b + rest);
      assert Span(State(d, false, false), a + (b + rest)) == Plus(Span(State(d, false, false), b + rest), |a|);
      assert Span(State(d, false, false), b + rest) == Plus(Span(State(d, false, false), rest), |b|);
    }
  }

  lemma NeutralByte(c: byte)
    requires c != QUOTE && c != OPEN && c != CLOSE
    ensures Neutral([c])
  {
    hide Span;
    forall d: nat, rest: Text | d > 0
      ensures Span(State(d, false, false), [c] + rest) == Plus(Span(State(d, false, false), rest), 1)
    {
      SpanCons(State(d, false, false), c, rest);
    }
  }

  lemma {:induction false} NeutralBare(s: Text)
    requires Bare(s)
    ensures Neutral(s)
    decreases |s|
  {
    hide Neutral;
    if s == [] {
      NeutralNone();
    } else {
      NeutralByte(s[0]);
      NeutralBare(s[1..]);
      NeutralConcat([s[0]], s[1..]);
      assert s == [s[0]] + s[1..];
    }
  }

  lemma BlankIsBare(s: Text)
    requires Blank(s)
    ensures Bare(s)
  {
  }

  /** Inside a string only its closing quote ends it, whatever is escaped. */
  lemma {:induction false} CharsScan(d: nat, chars: seq<Char>, rest: Text)
    requires CharsOk(chars)
    ensures Span(State(d, true, false), CharsText(chars) + rest) == Plus(Span(State(d, true, false), rest), |CharsText(chars)|)
    decreases |chars|
  {
    hide Span;
    if chars == [] {
      assert CharsText(chars) + rest == rest;
      PlusNothing(Span(State(d, true, false), rest));
    } else {
      var tail := CharsText(chars[1..]);
      CharsScan(d, chars[1..], rest);
      var st := State(d, true, false);
      if chars[0].Plain? {
        assert CharsText(chars) + rest == [chars[0].b] + (tail + rest);
        SpanCons(st, chars[0].b, tail + rest);
        PlusPlus(Span(st, rest), |tail|, 1);
      } else {
        assert CharsText(chars) + rest == [BACKSLASH] + ([chars[0].b] + (tail + rest));
        SpanCons(st, BACKSLASH, [chars[0].b] + (tail + rest));
        SpanCons(State(d, true, true), chars[0].b, tail + rest);
        PlusPlus(Span(st, rest), |tail|, 1);
        PlusPlus(Span(st, rest), |tail| + 1, 1);
      }
    }
  }

  lemma PlusPlus(n: Option<nat>, j: nat, k: nat)
    ensures Plus(Plus(n, j), k) == Plus(n, j + k)
  {
  }

  lemma NeutralQuoted(chars: seq<Char>)
    requires CharsOk(chars)
    ensures Neutral(Quoted(chars))
  {
    hide Span, CharsText, CharsOk;
    var text := CharsText(chars);
    forall d: nat, rest: Text | d > 0
      ensures Span(State(d, false, false), Quoted(chars) + rest) == Plus(Span(State(d, false, false), rest), |Quoted(chars)|)
    {
      assert Quoted(chars) + rest == [QUOTE] + (text + ([QUOTE] + rest));
      SpanCons(State(d, false, false), QUOTE, text + ([QUOTE] + rest));
      CharsScan(d, chars, [QUOTE] + rest);
      SpanCons(State(d, true, false), QUOTE, rest);
    }
  }

  /** A balanced body between braces is passed over. */
  lemma NeutralBraced(body: Text)
    requires Neutral(body)
    ensures Neutral([OPEN] + body + [CLOSE])
  {
    hide Span;
    var s := [OPEN] + body + [CLOSE];
    forall d: nat, rest: Text | d > 0
      ensures Span(State(d, false, false), s + rest) == Plus(Span(State(d, false, false), rest), |s|)
    {
      assert s + rest == [OPEN] + (body + ([CLOSE] + rest));
      SpanCons(State(d, false, false), OPEN, body + ([CLOSE] + rest));
      assert Span(State(d + 1, false, false), body + ([CLOSE] + rest)) == Plus(Span(State(d + 1, false, false), [CLOSE] + rest), |body|);
      SpanCons(State(d + 1, false, false), CLOSE, rest);
    }
  }

  lemma {:induction false} NeutralValue(v: Json)
    requires Ok(v)
    ensures Neutral(Written(v))
    decreases v, 0
  {
    hide Neutral;
    match v {
      case Literal(text) => NeutralBare(text);
      case String(chars) => NeutralQuoted(chars);
      case Array(blank, elements) =>
        NeutralElements(elements);
        NeutralByte(0x5B);
        NeutralByte(0x5D);
        BlankIsBare(blank);
        NeutralBare(blank);
        NeutralConcat(blank, ElementsText(elements));
        NeutralConcat([0x5B], blank + ElementsText(elements));
        NeutralConcat([0x5B] + (blank + ElementsText(elements)), [0x5D]);
      case Object(blank, members) =>
        NeutralMembers(members);
        BlankIsBare(blank);
        NeutralBare(blank);
        NeutralConcat(blank, MembersText(members));
        NeutralBraced(blank + MembersText(members));
    }
  }

  lemma NeutralComma(more: bool)
    ensures Neutral(if more then [0x2C] else [])
  {
    hide Neutral;
    NeutralNone();
    NeutralByte(0x2C);
  }

  lemma {:induction false} NeutralElements(elements: seq<Element>)
    requires ElementsOk(elements)
    ensures Neutral(ElementsText(elements))
    decreases elements, 1
  {
    hide Neutral, Blank, Written, Ok;
    if elements == [] {
      NeutralNone();
    } else {
      var e := elements[0];
      var comma := if |elements| > 1 then [0x2C] else [];
      NeutralElements(elements[1..]);
      NeutralValue(e.value);
      BlankIsBare(e.before);
      NeutralBare(e.before);
      BlankIsBare(e.after);
      NeutralBare(e.after);
      NeutralComma(|elements| > 1);
      NeutralConcat(e.before, Written(e.value));
      NeutralConcat(e.before + Written(e.value), e.after);
      NeutralConcat(e.before + Written(e.value) + e.after, comma);
      NeutralConcat(e.before + Written(e.value) + e.after + comma, ElementsText(elements[1..]));
    }
  }

  lemma {:induction false} NeutralMembers(members: seq<Member>)
    requires MembersOk(members)
    ensures Neutral(MembersText(members))
    decreases members, 1
  {
    hide Neutral, Blank, Written, Ok, Quoted, CharsOk;
    if members == [] {
      NeutralNone();
    } else {
      var m := members[0];
      NeutralMembers(members[1..]);
      NeutralValue(m.value);
      NeutralMember(m, |members| > 1);
      var text := m.before + Quoted(m.key) + m.colon + [0x3A] + m.between + Written(m.value) + m.after + (if |members| > 1 then [0x2C] else []);
      NeutralConcat(text, MembersText(members[1..]));
    }
  }

  lemma NeutralMember(m: Member, more: bool)
    requires Blank(m.before) && CharsOk(m.key) && Blank(m.colon) && Blank(m.between) && Blank(m.after) && Neutral(Written(m.value))
    ensures Neutral(m.before + Quoted(m.key) + m.colon + [0x3A] + m.between + Written(m.value) + m.after + (if more then [0x2C] else []))
  {
    hide Neutral, Written, Quoted, CharsOk, Bare;
    BlankIsBare(m.before);
    BlankIsBare(m.colon);
    BlankIsBare(m.between);
    BlankIsBare(m.after);
    NeutralBare(m.before);
    NeutralBare(m.colon);
    NeutralBare(m.between);
    NeutralBare(m.after);
    NeutralQuoted(m.key);
    NeutralByte(0x3A);
    NeutralComma(more);
    NeutralConcat(m.before, Quoted(m.key));
    var a := m.before + Quoted(m.key);
    NeutralConcat(a, m.colon);
    NeutralConcat(a + m.colon, [0x3A]);
    var b := a + m.colon + [0x3A];
    NeutralConcat(b, m.between);
    NeutralConcat(b + m.between, Written(m.value));
    var c := b + m.between + Written(m.value);
    NeutralConcat(c, m.after);
    NeutralConcat(c + m.after, if more then [0x2C] else []);
  }

  /** From its first brace an object is scanned to its last byte and no further. */
  lemma ObjectSpan(v: Json, rest: Text)
    requires Ok(v) && v.Object?
    ensures Span(START, Written(v) + rest) == Some(|Written(v)|)
  {
    var body := v.blank + MembersText(v.members);
    NeutralMembers(v.members);
    BlankIsBare(v.blank);
    NeutralBare(v.blank);
    hide Neutral;
    NeutralConcat(v.blank, MembersText(v.members));
    BodySpan(body, rest);
  }

  lemma BodySpan(body: Text, rest: Text)
    requires Neutral(body)
    ensures Span(START, [OPEN] + body + [CLOSE] + rest) == Some(|[OPEN] + body + [CLOSE]|)
  {
    hide Span;
    assert [OPEN] + body + [CLOSE] + rest == [OPEN] + (body + ([CLOSE] + rest));
    SpanCons(START, OPEN, body + ([CLOSE] + rest));
    assert Span(State(1, false, false), body + ([CLOSE] + rest)) == Plus(Span(State(1, false, false), [CLOSE] + rest), |body|);
    SpanCons(State(1, false, false), CLOSE, rest);
  }

  // ---- the reply around it

  predicate Lacks(s: Text, pat: Text) {
    forall i :: 0 <= i <= |s| ==> !OccursAt(s, pat, i)
  }

  lemma ObjectAfter(before: Text, v: Json, rest: Text)
    requires Ok(v) && v.Object? && OPEN !in before
    ensures FirstObject(before + Written(v) + rest) == Written(v)
  {
    var s := before + Written(v) + rest;
    var i := |before|;
    assert Written(v) == [OPEN] + (v.blank + MembersText(v.members)) + [CLOSE];
    assert Written(v) != [] && Written(v)[0] == OPEN;
    ObjectSpan(v, rest);
    hide Written, Span, Index;
    assert s[i] == OPEN && s[i..i + 1] == [OPEN];
    forall j | 0 <= j < i ensures !OccursAt(s, [OPEN], j) {
      assert s[j] == before[j];
      assert s[j..j + 1] == [before[j]];
    }
    IndexIs(s, [OPEN], i);
    assert s[i..] == Written(v) + rest;
    assert s[i..i + |Written(v)|] == Written(v);
  }

  predicate Printable(b: byte) {
    0x21 <= b <= 0x7E
  }

  lemma {:induction false} TrimLeftKeeps(a: Text, core: Text) returns (k: nat)
    requires core != [] && Printable(core[0])
    ensures k <= |a| && TrimLeft(a + core) == a[k..] + core
    decreases |a|
  {
    var n := SpaceAtStart(a + core);
    SpaceInside(a, core);
    if n == 0 {
      k := 0;
    } else {
      assert (a + core)[n..] == a[n..] + core;
      var rest := TrimLeftKeeps(a[n..], core);
      k := n + rest;
      assert a[n..][rest..] == a[k..];
    }
  }

  lemma SpaceNotPrintable(s: Text)
    ensures forall i :: 0 <= i < SpaceAtStart(s) ==> !Printable(s[i])
  {
  }

  lemma SpaceInside(a: Text, core: Text)
    requires core != [] && Printable(core[0])
    ensures SpaceAtStart(a + core) <= |a|
  {
    var s := a + core;
    SpaceNotPrintable(s);
    hide SpaceAtStart;
    assert s[|a|] == core[0];
  }

  lemma {:induction false} TrimRightKeeps(core: Text, b: Text) returns (k: nat)
    requires core != [] && Printable(core[|core| - 1])
    ensures k <= |b| && TrimRight(core + b) == core + b[..k]
    decreases |b|
  {
    var n := SpaceAtEnd(core + b);
    SpaceBehind(core, b);
    if n == 0 {
      k := |b|;
    } else {
      assert (core + b)[..|core + b| - n] == core + b[..|b| - n];
      k := TrimRightKeeps(core, b[..|b| - n]);
      assert b[..|b| - n][..k] == b[..k];
    }
  }

  lemma WideNotPrintable(s: Text)
    requires |s| == 3 && WideSpace(s)
    ensures !Printable(s[0]) && !Printable(s[1]) && !Printable(s[2])
  {
  }

  lemma SpaceByteNotPrintable(b: byte)
    ensures b == 0x20 || 0x09 <= b <= 0x0D || b == 0xC2 || b == 0x85 || b == 0xA0 ==> !Printable(b)
  {
  }

  lemma SpaceEndNotPrintable(s: Text)
    ensures forall i :: |s| - SpaceAtEnd(s) <= i < |s| ==> !Printable(s[i])
  {
    hide Printable, WideSpace;
    var k := |s|;
    if k >= 1 {
      SpaceByteNotPrintable(s[k - 1]);
    }
    if k >= 2 {
      SpaceByteNotPrintable(s[k - 2]);
    }
    if k >= 3 && WideSpace(s[k - 3..]) {
      WideNotPrintable(s[k - 3..]);
      assert s[k - 3..][0] == s[k - 3] && s[k - 3..][1] == s[k - 2] && s[k - 3..][2] == s[k - 1];
    }
  }

  lemma SpaceBehind(core: Text, b: Text)
    requires core != [] && Printable(core[|core| - 1])
    ensures SpaceAtEnd(core + b) <= |b|
  {
    var s := core + b;
    SpaceEndNotPrintable(s);
    hide SpaceAtEnd;
    assert s[|core| - 1] == core[|core| - 1];
  }

  /** Trimming takes nothing from a text that starts and ends with printable bytes. */
  lemma TrimAround(a: Text, core: Text, b: Text) returns (k: nat, l: nat)
    requires core != [] && Printable(core[0]) && Printable(core[|core| - 1])
    ensures k <= |a| && l <= |b| && TrimSpace(a + core + b) == a[k..] + core + b[..l]
  {
    assert a + core + b == a + (core + b);
    k := TrimLeftKeeps(a, core + b);
    assert a[k..] + (core + b) == (a[k..] + core) + b;
    l := TrimRightKeeps(a[k..] + core, b);
  }

  lemma OccursInside(a: Text, s: Text, b: Text, pat: Text, i: nat)
    requires OccursAt(s, pat, i)
    ensures OccursAt(a + s + b, pat, |a| + i)
  {
    assert (a + s + b)[|a| + i..|a| + i + |pat|] == s[i..i + |pat|];
  }

  lemma WrittenEnds(v: Json)
    requires v.Object?
    ensures Written(v) != [] && Written(v)[0] == OPEN && Written(v)[|Written(v)| - 1] == CLOSE
  {
  }

  /** The trimmed reply without a fence. */
  lemma NoFenceLeft(a: Text, s: Text, b: Text)
    requires Lacks(a + s + b, FENCE)
    ensures Unfenced(s) == s
  {
    if Index(s, FENCE) < |s| {
      OccursInside(a, s, b, FENCE, Index(s, FENCE));
    }
    hide TrimSpace;
  }

  /** Any object as JSON writes it, after a text without a brace and before any text, with
      no code fence anywhere, is extracted to the byte. */
  lemma PlainReply(before: Text, v: Json, after: Text)
    requires Ok(v) && v.Object? && OPEN !in before && Lacks(before + Written(v) + after, FENCE)
    ensures Extracted(before + Written(v) + after) == Written(v)
  {
    hide Written, Unfenced, FirstObject, TrimSpace, Lacks, Ok;
    WrittenEnds(v);
    var k, l := TrimAround(before, Written(v), after);
    var s := before[k..] + Written(v) + after[..l];
    assert before + Written(v) + after == before[..k] + s + after[l..];
    NoFenceLeft(before[..k], s, after[l..]);
    ObjectAfter(before[k..], v, after[..l]);
  }

  lemma FenceFirst(a: Text, k: nat, core: Text, b: Text, l: nat)
    requires k <= |a| && l <= |b| && |core| >= 3 && core[..3] == FENCE
    requires Index(a + core + b, FENCE) == |a|
    ensures Index(a[k..] + core + b[..l], FENCE) == |a| - k
  {
    hide Index, OccursAt;
    var s := a[k..] + core + b[..l];
    StartsAt(a[k..], core, b[..l]);
    Trimmed(a, k, core, b, l);
    forall j | 0 <= j < |a| - k ensures !OccursAt(s, FENCE, j) {
      if OccursAt(s, FENCE, j) {
        OccursInside(a[..k], s, b[l..], FENCE, j);
      }
    }
    IndexIs(s, FENCE, |a| - k);
  }

  lemma StartsAt(a: Text, core: Text, b: Text)
    requires |core| >= 3 && core[..3] == FENCE
    ensures OccursAt(a + core + b, FENCE, |a|)
  {
    assert (a + core + b)[|a|..|a| + 3] == core[..3];
  }

  lemma Trimmed(a: Text, k: nat, core: Text, b: Text, l: nat)
    requires k <= |a| && l <= |b|
    ensures a[..k] + (a[k..] + core + b[..l]) + b[l..] == a + core + b
  {
  }

  lemma LineFirst(tag: Text, rest: Text)
    requires NEWLINE !in tag
    ensures Index(tag + [NEWLINE] + rest, [NEWLINE]) == |tag|
  {
    var s := tag + [NEWLINE] + rest;
    assert s[|tag|..|tag| + 1] == [NEWLINE];
    forall j | 0 <= j < |tag| ensures !OccursAt(s, [NEWLINE], j) {
      assert s[j] == tag[j];
      assert s[j..j + 1] == [tag[j]];
    }
    IndexIs(s, [NEWLINE], |tag|);
  }

  /** What Unfenced makes of a fenced text. */
  lemma UnfencedIs(a: Text, tag: Text, inner: Text, b: Text)
    requires NEWLINE !in tag
    requires Index(a + (FENCE + tag + [NEWLINE] + inner + FENCE) + b, FENCE) == |a|
    requires Index(inner + FENCE + b, FENCE) == |inner|
    ensures Unfenced(a + (FENCE + tag + [NEWLINE] + inner + FENCE) + b) == TrimSpace(inner)
  {
    hide TrimSpace, Index, FirstBlock;
    FencePieces(a, tag, inner, b);
    BlockIs(tag, inner, b);
  }

  lemma BlockIs(tag: Text, inner: Text, b: Text)
    requires NEWLINE !in tag && Index(inner + FENCE + b, FENCE) == |inner|
    ensures FirstBlock(tag + [NEWLINE] + (inner + FENCE + b)) == inner
  {
    hide Index;
    LineFirst(tag, inner + FENCE + b);
    BodyPieces(tag, inner, FENCE, b);
  }

  lemma FencePieces(a: Text, tag: Text, inner: Text, b: Text)
    ensures
      var s := a + (FENCE + tag + [NEWLINE] + inner + FENCE) + b;
      |a| + 3 <= |s| && s[|a| + 3..] == tag + [NEWLINE] + (inner + FENCE + b)
  {
  }

  lemma BodyPieces(tag: Text, inner: Text, fence: Text, b: Text)
    ensures (tag + [NEWLINE] + (inner + fence + b))[|tag| + 1..] == inner + fence + b
    ensures (inner + fence + b)[..|inner|] == inner
  {
  }

  /** The object inside the first code fence of a reply, whatever else the reply says. */
  lemma FencedReply(prefix: Text, tag: Text, before: Text, v: Json, after: Text, suffix: Text)
    requires Ok(v) && v.Object? && OPEN !in before && NEWLINE !in tag
    requires
      var inner := before + Written(v) + after;
      && Index(inner + FENCE + suffix, FENCE) == |inner|
      && Index(prefix + (FENCE + tag + [NEWLINE] + inner + FENCE) + suffix, FENCE) == |prefix|
    ensures Extracted(prefix + (FENCE + tag + [NEWLINE] + (before + Written(v) + after) + FENCE) + suffix) == Written(v)
  {
    hide Written, Unfenced, FirstObject, TrimSpace, Index, Ok;
    WrittenEnds(v);
    var inner := before + Written(v) + after;
    var core := FENCE + tag + [NEWLINE] + inner + FENCE;
    assert core[0] == 0x60 && core[|core| - 1] == 0x60 && core[..3] == FENCE;
    var k, l := TrimAround(prefix, core, suffix);
    FenceFirst(prefix, k, core, suffix, l);
    FenceAfter(inner, suffix, l);
    UnfencedIs(prefix[k..], tag, inner, suffix[..l]);
    var m, n := TrimAround(before, Written(v), after);
    ObjectAfter(before[m..], v, after[..n]);
  }

  lemma FenceAfter(inner: Text, suffix: Text, l: nat)
    requires l <= |suffix| && Index(inner + FENCE + suffix, FENCE) == |inner|
    ensures Index(inner + FENCE + suffix[..l], FENCE) == |inner|
  {
    hide Index;
    assert inner[0..] == inner;
    FenceFirst(inner, 0, FENCE, suffix, l);
  }
}
