/** The emitted SQL, read with the precedence of the server and evaluated with the
    emitted arguments, has the meaning of the filter. */
module HqlPreserved {
  import opened Wrappers
  import opened HqlAst
  import opened HqlParser
  import opened HqlGrammar
  import opened HqlPrinter
  import opened HqlImage
  import opened HqlSchema
  import opened HqlLiterals
  import opened HqlSql
  import opened HqlSqlRead
  import opened HqlMeaning
  import opened Like

  // ---- the syntax tree the text is meant to have

  function EmptySql(col: string): Sql {
    SOr(SIsNull(col), SCompare(col, EqOp, Text("")))
  }

  function TextSql(c: Expr, f: Field, n: int): Sql
    requires c.Comparison?
  {
    var col := f.column;
    if c.op == OP_CONTAINS || c.op == OP_NOT_CONTAINS then SILike(col, c.op == OP_NOT_CONTAINS, n, [ESCAPE])
    else if c.op == OP_EQ || c.op == OP_NE then SCompare(col, ComparatorOf(c.op), Arg(n))
    else if c.op == OP_IN then SAny(col, EqOp, n)
    else if c.op == OP_NOT_IN then SAll(col, NeOp, n)
    else if c.op == OP_NOT_EMPTY then SNot(EmptySql(col))
    else EmptySql(col)
  }

  /** `count` more tag tests after `left`. */
  function TagChain(left: Sql, n: int, count: nat): Sql
    decreases count
  {
    if count == 0 then left else TagChain(SOr(left, SContains(TAGS, n)), n + 1, count - 1)
  }

  function TagEmptySql(f: Field, n: int): Sql {
    if f.prefix == "" then SOr(SIsNull(TAGS), SCardinality(TAGS, EqOp, 0))
    else SNot(SExists(TAGS, "t", SLike("t", n)))
  }

  function TagSql(c: Expr, f: Field, n: int): Sql
    requires c.Comparison?
  {
    if c.op == OP_EQ then SContains(TAGS, n)
    else if c.op == OP_NE then SNot(SContains(TAGS, n))
    else if c.op == OP_IN || c.op == OP_NOT_IN then
      var any := if c.list == [] then SContains(TAGS, n) else TagChain(SContains(TAGS, n), n + 1, |c.list| - 1);
      if c.op == OP_IN then any else SNot(any)
    else if c.op == OP_NOT_EMPTY then SNot(TagEmptySql(f, n))
    else TagEmptySql(f, n)
  }

  function SqlOf(e: Expr, ctx: EvalContext, n: int): Sql
    requires Compile(e, ctx, n).Ok?
  {
    match e
    case And(l, r) => SAnd(SqlOf(l, ctx, n), SqlOf(r, ctx, n + |Compile(l, ctx, n).value.args|))
    case Or(l, r) => SOr(SqlOf(l, ctx, n), SqlOf(r, ctx, n + |Compile(l, ctx, n).value.args|))
    case Not(x) => SNot(SqlOf(x, ctx, n))
    case Comparison(_, _, _, _) =>
      var f := LookupField(e.field).value;
      match f.kind
      case KText => TextSql(e, f, n)
      case KID => TextSql(e, f, n)
      case KInt => SCompare(f.column, ComparatorOf(e.op), Arg(n))
      case KDate => SCompare(f.column, ComparatorOf(e.op), Arg(n))
      case KTagPrefix => TagSql(e, f, n)
  }

  /** The parser never yields an empty list; a caller could. */
  predicate NoEmptyTagList(e: Expr) {
    match e
    case And(l, r) => NoEmptyTagList(l) && NoEmptyTagList(r)
    case Or(l, r) => NoEmptyTagList(l) && NoEmptyTagList(r)
    case Not(x) => NoEmptyTagList(x)
    case Comparison(field, op, _, list) =>
      LookupField(field).Some? && LookupField(field).value.kind == KTagPrefix && (op == OP_IN || op == OP_NOT_IN) ==> list != []
  }

  // ---- reading the tests of a column

  lemma ColumnReads(col: string, ts: seq<Tok>)
    ensures ReadNot([Column(col)] + ts) == ReadColumnTest(col, ts)
  {
    var all := [Column(col)] + ts;
    assert all[0] == Column(col) && all[1..] == ts;
    hide ReadColumnTest, ReadOr;
  }

  lemma CompareReads(col: string, op: Comparator, n: int, rest: seq<Tok>)
    ensures ReadNot(CompareTest(col, op, n) + rest) == Some(Read(SCompare(col, op, Arg(n)), rest))
  {
    var ts := [Compare(op), Placeholder(n)] + rest;
    assert CompareTest(col, op, n) + rest == [Column(col)] + ts;
    hide ReadNot;
    ColumnReads(col, ts);
    assert ts[2..] == rest;
  }

  lemma CompareTextReads(col: string, op: Comparator, text: string, rest: seq<Tok>)
    ensures ReadNot([Column(col), Compare(op), Literal(text)] + rest) == Some(Read(SCompare(col, op, Text(text)), rest))
  {
    var ts := [Compare(op), Literal(text)] + rest;
    assert [Column(col), Compare(op), Literal(text)] + rest == [Column(col)] + ts;
    hide ReadNot;
    ColumnReads(col, ts);
    assert ts[2..] == rest;
  }

  lemma IsNullReads(col: string, rest: seq<Tok>)
    ensures ReadNot([Column(col), IsKw, NullKw] + rest) == Some(Read(SIsNull(col), rest))
  {
    var ts := [IsKw, NullKw] + rest;
    assert [Column(col), IsKw, NullKw] + rest == [Column(col)] + ts;
    hide ReadNot;
    ColumnReads(col, ts);
    assert ts[2..] == rest;
  }

  lemma ListReads(col: string, negated: bool, n: int, rest: seq<Tok>)
    ensures ReadNot(ListTest(col, negated, n) + rest) ==
      Some(Read(if negated then SAll(col, NeOp, n) else SAny(col, EqOp, n), rest))
  {
    hide ReadNot;
    var test := [Compare(if negated then NeOp else EqOp), if negated then AllKw else AnyKw, Open, Placeholder(n), Close];
    var ts := test + rest;
    assert ListTest(col, negated, n) == [Column(col)] + test;
    assert [Column(col)] + test + rest == [Column(col)] + ts;
    ColumnReads(col, ts);
    assert ts[2..][0] == Open && ts[2..][1] == Placeholder(n) && ts[2..][2] == Close && ts[5..] == rest;
  }

  lemma ContainsReads(col: string, negated: bool, n: int, rest: seq<Tok>)
    ensures ReadNot(ContainsTest(col, negated, n) + rest) == Some(Read(SILike(col, negated, n, [ESCAPE]), rest))
  {
    var tail := [Placeholder(n), EscapeKw, Literal([ESCAPE])] + rest;
    hide ReadNot;
    assert [ESCAPE] == "\\";
    assert tail[3..] == rest;
    if negated {
      var ts := [NotKw, ILikeKw] + tail;
      assert ContainsTest(col, negated, n) + rest == [Column(col)] + ts;
      ColumnReads(col, ts);
      assert ts[2..] == tail;
    } else {
      var ts := [ILikeKw] + tail;
      assert ContainsTest(col, negated, n) + rest == [Column(col)] + ts;
      ColumnReads(col, ts);
      assert ts[1..] == tail;
    }
  }

  lemma LikeReads(col: string, n: int, rest: seq<Tok>)
    ensures ReadNot([Column(col), LikeKw, Placeholder(n)] + rest) == Some(Read(SLike(col, n), rest))
  {
    var ts := [LikeKw, Placeholder(n)] + rest;
    assert [Column(col), LikeKw, Placeholder(n)] + rest == [Column(col)] + ts;
    hide ReadNot;
    ColumnReads(col, ts);
    assert ts[2..] == rest;
  }

  lemma TagTestReads(n: int, rest: seq<Tok>)
    ensures ReadNot(TagTest(n) + rest) == Some(Read(SContains(TAGS, n), rest))
  {
    var ts := [ContainsOp, ArrayKw, OpenBracket, Placeholder(n), CloseBracket, TextArrayCast] + rest;
    assert TagTest(n) + rest == [Column(TAGS)] + ts;
    hide ReadNot;
    ColumnReads(TAGS, ts);
    assert ts[6..] == rest;
  }

  lemma CardinalityReads(rest: seq<Tok>)
    ensures ReadNot([CardinalityKw, Open, Column(TAGS), Close, Compare(EqOp), Number(0)] + rest) ==
      Some(Read(SCardinality(TAGS, EqOp, 0), rest))
  {
    var ts := [CardinalityKw, Open, Column(TAGS), Close, Compare(EqOp), Number(0)] + rest;
    assert ts[6..] == rest;
  }

  // ---- reading connectives

  /** The text between parentheses, when what it starts with reads as `x` and the
      parenthesis follows. */
  lemma ClosedReads(ts: seq<Tok>, x: Sql, rest: seq<Tok>)
    requires ReadNot(ts) == Some(Read(x, [Close] + rest))
    ensures ReadOr(ts) == Some(Read(x, [Close] + rest))
    ensures ReadNot([Open] + ts) == Some(Read(x, rest))
  {
    hide ReadNot, ReadOr;
    ClosesAnd(ts, x, [Close] + rest);
    ClosesOr(ts, x, [Close] + rest);
    OpenReads(ts, x, rest);
  }

  lemma ClosesOr(ts: seq<Tok>, l: Sql, rest: seq<Tok>)
    requires ReadAnd(ts) == Some(Read(l, rest)) && (rest == [] || rest[0] != OrKw)
    ensures ReadOr(ts) == Some(Read(l, rest))
  {
    hide ReadAnd;
  }

  lemma OpenReads(ts: seq<Tok>, x: Sql, rest: seq<Tok>)
    requires ReadOr(ts) == Some(Read(x, [Close] + rest))
    ensures ReadNot([Open] + ts) == Some(Read(x, rest))
  {
    var all := [Open] + ts;
    assert all[1..] == ts && all[0] == Open;
    assert ([Close] + rest)[1..] == rest && ([Close] + rest)[0] == Close;
    hide ReadColumnTest, ReadOr;
  }

  lemma NotReads(ts: seq<Tok>, x: Sql, rest: seq<Tok>)
    requires ReadNot(ts) == Some(Read(x, rest))
    ensures ReadNot([NotKw] + ts) == Some(Read(SNot(x), rest))
  {
    assert ([NotKw] + ts)[1..] == ts;
    hide ReadPredicate;
  }

  lemma AndReads(ts: seq<Tok>, l: Sql, us: seq<Tok>, r: Sql, rest: seq<Tok>)
    requires ReadNot(ts) == Some(Read(l, [AndKw] + us)) && ReadNot(us) == Some(Read(r, [Close] + rest))
    ensures ReadOr(ts) == Some(Read(SAnd(l, r), [Close] + rest))
  {
    assert ([AndKw] + us)[1..] == us && ([AndKw] + us)[0] == AndKw && ([Close] + rest)[0] == Close;
    hide ReadNot;
    assert ReadAndTail(SAnd(l, r), [Close] + rest) == Some(Read(SAnd(l, r), [Close] + rest));
    assert ReadAndTail(l, [AndKw] + us) == Some(Read(SAnd(l, r), [Close] + rest));
  }

  lemma ClosesAnd(ts: seq<Tok>, l: Sql, rest: seq<Tok>)
    requires ReadNot(ts) == Some(Read(l, rest)) && (rest == [] || rest[0] != AndKw)
    ensures ReadAnd(ts) == Some(Read(l, rest))
  {
    hide ReadNot;
  }

  lemma OrReads(ts: seq<Tok>, l: Sql, us: seq<Tok>, r: Sql, rest: seq<Tok>)
    requires ReadNot(ts) == Some(Read(l, [OrKw] + us)) && ReadNot(us) == Some(Read(r, [Close] + rest))
    ensures ReadOr(ts) == Some(Read(SOr(l, r), [Close] + rest))
  {
    assert ([OrKw] + us)[1..] == us && ([OrKw] + us)[0] == OrKw && ([Close] + rest)[0] == Close;
    ClosesAnd(ts, l, [OrKw] + us);
    ClosesAnd(us, r, [Close] + rest);
    hide ReadAnd;
    assert ReadOrTail(SOr(l, r), [Close] + rest) == Some(Read(SOr(l, r), [Close] + rest));
  }

  // ---- reading the longer leaves

  lemma EmptyTestReads(col: string, rest: seq<Tok>)
    ensures ReadNot(EmptyTest(col) + rest) == Some(Read(EmptySql(col), rest))
  {
    var us := [Column(col), Compare(EqOp), Literal("")] + ([Close] + rest);
    var ts := [Column(col), IsKw, NullKw] + ([OrKw] + us);
    hide ReadNot, ReadOr;
    CompareTextReads(col, EqOp, "", [Close] + rest);
    IsNullReads(col, [OrKw] + us);
    OrReads(ts, SIsNull(col), us, SCompare(col, EqOp, Text("")), rest);
    OpenReads(ts, EmptySql(col), rest);
    assert EmptyTest(col) + rest == [Open] + ts;
  }

  lemma NoTagsReads(rest: seq<Tok>)
    ensures ReadNot(NO_TAGS + rest) == Some(Read(SOr(SIsNull(TAGS), SCardinality(TAGS, EqOp, 0)), rest))
  {
    var us := [CardinalityKw, Open, Column(TAGS), Close, Compare(EqOp), Number(0)] + ([Close] + rest);
    var ts := [Column(TAGS), IsKw, NullKw] + ([OrKw] + us);
    hide ReadNot, ReadOr;
    CardinalityReads([Close] + rest);
    IsNullReads(TAGS, [OrKw] + us);
    OrReads(ts, SIsNull(TAGS), us, SCardinality(TAGS, EqOp, 0), rest);
    OpenReads(ts, SOr(SIsNull(TAGS), SCardinality(TAGS, EqOp, 0)), rest);
    assert NO_TAGS + rest == [Open] + ts;
  }

  lemma ExistsReads(ts: seq<Tok>, cond: Sql, rest: seq<Tok>)
    requires ReadOr(ts) == Some(Read(cond, [Close] + rest))
    ensures ReadNot([ExistsKw, Open, SelectKw, Number(1), FromKw, UnnestKw, Open, Column(TAGS), Close, Column("t"), WhereKw] + ts) ==
      Some(Read(SExists(TAGS, "t", cond), rest))
  {
    hide ReadOr, ReadColumnTest;
    var head := [ExistsKw, Open, SelectKw, Number(1), FromKw, UnnestKw, Open, Column(TAGS), Close, Column("t"), WhereKw];
    var all := head + ts;
    assert all[0] == ExistsKw && all[1..] == head[1..] + ts;
    assert all[11..] == ts && ([Close] + rest)[1..] == rest;
  }

  lemma NoTagWithPrefixReads(n: int, rest: seq<Tok>)
    ensures ReadNot(NoTagWithPrefix(n) + rest) == Some(Read(SNot(SExists(TAGS, "t", SLike("t", n))), rest))
  {
    var ts := [Column("t"), LikeKw, Placeholder(n)] + ([Close] + rest);
    var head := [ExistsKw, Open, SelectKw, Number(1), FromKw, UnnestKw, Open, Column(TAGS), Close, Column("t"), WhereKw];
    hide ReadNot, ReadOr;
    LikeReads("t", n, [Close] + rest);
    ClosedReads(ts, SLike("t", n), rest);
    ExistsReads(ts, SLike("t", n), rest);
    NotReads(head + ts, SExists(TAGS, "t", SLike("t", n)), rest);
    assert NoTagWithPrefix(n) + rest == [NotKw] + (head + ts);
  }

  lemma TagEmptyReads(f: Field, n: int, rest: seq<Tok>)
    ensures ReadNot(TagEmpty(f, n).toks + rest) == Some(Read(TagEmptySql(f, n), rest))
  {
    hide ReadNot, NoTagWithPrefix;
    if f.prefix == "" {
      NoTagsReads(rest);
    } else {
      NoTagWithPrefixReads(n, rest);
    }
  }

  lemma NegatedReads(ts: seq<Tok>, x: Sql, rest: seq<Tok>)
    requires ReadNot(ts + ([Close] + rest)) == Some(Read(x, [Close] + rest))
    ensures ReadNot(Negated(ts) + rest) == Some(Read(SNot(x), rest))
  {
    hide ReadNot, ReadOr;
    ClosedReads(ts + ([Close] + rest), x, rest);
    NotReads([Open] + (ts + ([Close] + rest)), x, rest);
    assert Negated(ts) + rest == [NotKw] + ([Open] + (ts + ([Close] + rest)));
  }

  /** A chain of tag tests is read as one OR from the left. */
  lemma {:induction false} TagTailReads(left: Sql, n: int, count: nat, rest: seq<Tok>)
    requires count > 0
    ensures ReadOrTail(left, [OrKw] + (TagTests(n, count) + ([Close] + rest))) ==
      Some(Read(TagChain(left, n, count), [Close] + rest))
    decreases count
  {
    var us := TagTests(n, count) + ([Close] + rest);
    var after := if count == 1 then [Close] + rest else [OrKw] + (TagTests(n + 1, count - 1) + ([Close] + rest));
    hide ReadNot, ReadAnd, TagTest;
    assert us == TagTest(n) + after;
    TagTestReads(n, after);
    ClosesAnd(us, SContains(TAGS, n), after);
    OrTailTurn(left, us, SContains(TAGS, n), after);
    var left' := SOr(left, SContains(TAGS, n));
    if count == 1 {
      assert TagChain(left', n + 1, 0) == left';
      OrTailStops(left', [Close] + rest);
    } else {
      hide ReadOrTail;
      TagTailReads(left', n + 1, count - 1, rest);
    }
  }

  lemma OrTailTurn(left: Sql, us: seq<Tok>, r: Sql, after: seq<Tok>)
    requires ReadAnd(us) == Some(Read(r, after))
    ensures ReadOrTail(left, [OrKw] + us) == ReadOrTail(SOr(left, r), after)
  {
    assert ([OrKw] + us)[1..] == us;
    hide ReadAnd;
  }

  lemma OrTailStops(left: Sql, ts: seq<Tok>)
    requires ts != [] && ts[0] == Close
    ensures ReadOrTail(left, ts) == Some(Read(left, ts))
  {
  }

  lemma TagTestsSplit(n: int, count: nat, tail: seq<Tok>)
    requires count > 0
    ensures TagTests(n, count) + tail == TagTest(n) + (if count == 1 then tail else [OrKw] + (TagTests(n + 1, count - 1) + tail))
  {
    hide TagTest;
  }

  lemma TagChainReads(n: int, count: nat, rest: seq<Tok>)
    requires count > 0
    ensures ReadOr(TagTests(n, count) + ([Close] + rest)) ==
      Some(Read(TagChain(SContains(TAGS, n), n + 1, count - 1), [Close] + rest))
  {
    var first := SContains(TAGS, n);
    var ts := TagTests(n, count) + ([Close] + rest);
    TagTestsSplit(n, count, [Close] + rest);
    hide ReadNot, ReadAnd, ReadOr, TagTest, ReadOrTail, TagTests;
    if count == 1 {
      TagTestReads(n, [Close] + rest);
      ClosesAnd(ts, first, [Close] + rest);
      ClosesOr(ts, first, [Close] + rest);
    } else {
      var after := [OrKw] + (TagTests(n + 1, count - 1) + ([Close] + rest));
      TagTestReads(n, after);
      ClosesAnd(ts, first, after);
      TagTailReads(first, n + 1, count - 1, rest);
      OrContinues(ts, first, after);
    }
  }

  lemma TagListReads(n: int, count: nat, rest: seq<Tok>)
    requires count > 0
    ensures ReadNot([Open] + TagTests(n, count) + [Close] + rest) ==
      Some(Read(TagChain(SContains(TAGS, n), n + 1, count - 1), rest))
  {
    hide ReadNot, ReadOr, TagTests, TagChain;
    TagChainReads(n, count, rest);
    OpenReads(TagTests(n, count) + ([Close] + rest), TagChain(SContains(TAGS, n), n + 1, count - 1), rest);
    assert [Open] + TagTests(n, count) + [Close] + rest == [Open] + (TagTests(n, count) + ([Close] + rest));
  }

  lemma OrContinues(ts: seq<Tok>, l: Sql, rest: seq<Tok>)
    requires ReadAnd(ts) == Some(Read(l, rest))
    ensures ReadOr(ts) == ReadOrTail(l, rest)
  {
    hide ReadAnd;
  }

  // ---- reading whole conditions

  lemma TextReads(c: Expr, f: Field, ctx: EvalContext, n: int, rest: seq<Tok>)
    requires c.Comparison? && TextCmp(c, f, ctx, n).Ok?
    ensures ReadNot(TextCmp(c, f, ctx, n).value.toks + rest) == Some(Read(TextSql(c, f, n), rest))
  {
    var col := f.column;
    hide ReadNot, ContainsTest, CompareTest, ListTest, EmptyTest, EmptySql, ResolveScalar, ResolveAll, ComparatorOf, EscapeLike;
    ContainsReads(col, c.op == OP_NOT_CONTAINS, n, rest);
    CompareReads(col, ComparatorOf(c.op), n, rest);
    ListReads(col, c.op == OP_NOT_IN, n, rest);
    EmptyTestReads(col, rest);
    NotReads(EmptyTest(col) + rest, EmptySql(col), rest);
    assert [NotKw] + EmptyTest(col) + rest == [NotKw] + (EmptyTest(col) + rest);
  }

  lemma TagReads(c: Expr, f: Field, ctx: EvalContext, n: int, rest: seq<Tok>)
    requires c.Comparison? && TagCmp(c, f, ctx, n).Ok? && (c.op == OP_IN || c.op == OP_NOT_IN ==> c.list != [])
    ensures ReadNot(TagCmp(c, f, ctx, n).value.toks + rest) == Some(Read(TagSql(c, f, n), rest))
  {
    hide ReadNot, TagTest, TagTests, TagChain, TagEmpty, TagEmptySql, TagValue, TagValues, Negated;
    if c.op == OP_EQ || c.op == OP_NE {
      TagTestReads(n, rest);
      TagTestReads(n, [Close] + rest);
      NegatedReads(TagTest(n), SContains(TAGS, n), rest);
    } else if c.op == OP_IN || c.op == OP_NOT_IN {
      TagListReads(n, |c.list|, rest);
      var joined := [Open] + TagTests(n, |c.list|) + [Close];
      NotReads(joined + rest, TagChain(SContains(TAGS, n), n + 1, |c.list| - 1), rest);
      assert [NotKw] + joined + rest == [NotKw] + (joined + rest);
    } else {
      TagEmptyReads(f, n, rest);
      TagEmptyReads(f, n, [Close] + rest);
      NegatedReads(TagEmpty(f, n).toks, TagEmptySql(f, n), rest);
    }
  }

  lemma JoinReads(l: seq<Tok>, x: Sql, connective: Tok, r: seq<Tok>, y: Sql, rest: seq<Tok>)
    requires connective == AndKw || connective == OrKw
    requires ReadNot(r + ([Close] + rest)) == Some(Read(y, [Close] + rest))
    requires var us := r + ([Close] + rest); ReadNot(l + ([connective] + us)) == Some(Read(x, [connective] + us))
    ensures ReadNot([Open] + l + [connective] + r + [Close] + rest) ==
      Some(Read(if connective == AndKw then SAnd(x, y) else SOr(x, y), rest))
  {
    var us := r + ([Close] + rest);
    var ts := l + ([connective] + us);
    hide ReadNot, ReadOr;
    if connective == AndKw {
      AndReads(ts, x, us, y, rest);
      OpenReads(ts, SAnd(x, y), rest);
    } else {
      OrReads(ts, x, us, y, rest);
      OpenReads(ts, SOr(x, y), rest);
    }
    assert [Open] + l + [connective] + r + [Close] + rest == [Open] + ts;
  }

  function Connective(e: Expr): Tok {
    if e.And? then AndKw else OrKw
  }

  function PairSql(e: Expr, x: Sql, y: Sql): Sql {
    if e.And? then SAnd(x, y) else SOr(x, y)
  }

  /** The two compiled sides of a conjunction or disjunction. */
  lemma PairSplit(e: Expr, ctx: EvalContext, n: int) returns (cl: Compiled, cr: Compiled)
    requires (e.And? || e.Or?) && Compile(e, ctx, n).Ok?
    ensures Compile(e.l, ctx, n) == Ok(cl) && Compile(e.r, ctx, n + |cl.args|) == Ok(cr)
    ensures Compile(e, ctx, n) == Ok(Compiled([Open] + cl.toks + [Connective(e)] + cr.toks + [Close], cl.args + cr.args))
    ensures SqlOf(e, ctx, n) == PairSql(e, SqlOf(e.l, ctx, n), SqlOf(e.r, ctx, n + |cl.args|))
    ensures NoEmptyTagList(e) <==> NoEmptyTagList(e.l) && NoEmptyTagList(e.r)
  {
    hide CompileComparison, TextSql, TagSql;
    cl := Compile(e.l, ctx, n).value;
    cr := Compile(e.r, ctx, n + |cl.args|).value;
  }

  lemma NotSplit(e: Expr, ctx: EvalContext, n: int) returns (cx: Compiled)
    requires e.Not? && Compile(e, ctx, n).Ok?
    ensures Compile(e.x, ctx, n) == Ok(cx)
    ensures Compile(e, ctx, n) == Ok(Compiled([Open, NotKw] + cx.toks + [Close], cx.args))
    ensures SqlOf(e, ctx, n) == SNot(SqlOf(e.x, ctx, n))
    ensures NoEmptyTagList(e) <==> NoEmptyTagList(e.x)
  {
    hide CompileComparison, TextSql, TagSql;
    cx := Compile(e.x, ctx, n).value;
  }

  lemma ComparisonCompiles(e: Expr, ctx: EvalContext, n: int)
    requires e.Comparison?
    ensures Compile(e, ctx, n) == CompileComparison(e, ctx, n)
  {
    hide CompileComparison;
  }

  /** Every compiled condition without an empty tag list reads as intended,
      whatever text follows it. */
  lemma {:induction false} CompiledReads(e: Expr, ctx: EvalContext, n: int, rest: seq<Tok>)
    requires Compile(e, ctx, n).Ok? && NoEmptyTagList(e)
    ensures ReadNot(Compile(e, ctx, n).value.toks + rest) == Some(Read(SqlOf(e, ctx, n), rest))
    decreases e
  {
    hide ReadNot, CompileComparison, Compile, SqlOf, NoEmptyTagList;
    if e.And? || e.Or? {
      var cl, cr := PairSplit(e, ctx, n);
      var m := n + |cl.args|;
      CompiledReads(e.r, ctx, m, [Close] + rest);
      CompiledReads(e.l, ctx, n, [Connective(e)] + (cr.toks + ([Close] + rest)));
      JoinReads(cl.toks, SqlOf(e.l, ctx, n), Connective(e), cr.toks, SqlOf(e.r, ctx, m), rest);
    } else if e.Not? {
      var cx := NotSplit(e, ctx, n);
      CompiledReads(e.x, ctx, n, [Close] + rest);
      NotGroupReads(cx.toks, SqlOf(e.x, ctx, n), rest);
    } else {
      ComparisonCompiles(e, ctx, n);
      ComparisonReads(e, ctx, n, rest);
    }
  }

  lemma NotGroupReads(ts: seq<Tok>, x: Sql, rest: seq<Tok>)
    requires ReadNot(ts + ([Close] + rest)) == Some(Read(x, [Close] + rest))
    ensures ReadNot([Open, NotKw] + ts + [Close] + rest) == Some(Read(SNot(x), rest))
  {
    hide ReadNot, ReadOr;
    var tail := ts + ([Close] + rest);
    NotReads(tail, x, [Close] + rest);
    ClosedReads([NotKw] + tail, SNot(x), rest);
    assert [Open, NotKw] + ts + [Close] + rest == [Open] + ([NotKw] + tail);
  }

  lemma ComparisonReads(c: Expr, ctx: EvalContext, n: int, rest: seq<Tok>)
    requires c.Comparison? && CompileComparison(c, ctx, n).Ok? && NoEmptyTagList(c)
    ensures ReadNot(CompileComparison(c, ctx, n).value.toks + rest) == Some(Read(SqlOf(c, ctx, n), rest))
  {
    var f := LookupField(c.field).value;
    hide ReadNot, LookupField, OpAllowed, TextCmp, TagCmp, TextSql, TagSql, CompareTest, ComparatorOf;
    match f.kind {
      case KText => TextReads(c, f, ctx, n, rest);
      case KID => TextReads(c, f, ctx, n, rest);
      case KInt => CompareReads(f.column, ComparatorOf(c.op), n, rest);
      case KDate => CompareReads(f.column, ComparatorOf(c.op), n, rest);
      case KTagPrefix => TagReads(c, f, ctx, n, rest);
    }
  }

  // ---- evaluating

  /** The arguments of the fragment stand where its numbers point. */
  ghost predicate Bound(args: seq<Arg>, n: int, vals: seq<Arg>) {
    forall i :: 0 <= i < |vals| ==> ArgAt(args, n + i) == vals[i]
  }

  lemma BoundSplit(args: seq<Arg>, n: int, a: seq<Arg>, b: seq<Arg>)
    requires Bound(args, n, a + b)
    ensures Bound(args, n, a) && Bound(args, n + |a|, b)
  {
    forall i | 0 <= i < |a| ensures ArgAt(args, n + i) == a[i] {
      assert (a + b)[i] == a[i];
    }
    forall i | 0 <= i < |b| ensures ArgAt(args, n + |a| + i) == b[i] {
      assert (a + b)[|a| + i] == b[i];
      assert n + (|a| + i) == n + |a| + i;
    }
  }

  lemma BoundFirst(args: seq<Arg>, n: int, vals: seq<Arg>)
    requires Bound(args, n, vals) && vals != []
    ensures ArgAt(args, n) == vals[0]
  {
    assert ArgAt(args, n + 0) == vals[0];
  }

  lemma {:induction false} AnyOfText(s: Server, c: Cell, items: seq<Arg>)
    requires c.Null? || c.TextCell?
    ensures AnyOf(s, c, EqOp, items) ==
      if items == [] then False
      else if c.Null? then Unknown
      else Of(exists i :: 0 <= i < |items| && s.TextOf(items[i]) == c.text)
  {
    if items != [] {
      AnyOfText(s, c, items[1..]);
      if c.TextCell? {
        var later := items[1..];
        if i :| 0 <= i < |items| && s.TextOf(items[i]) == c.text {
          assert i > 0 ==> later[i - 1] == items[i];
        }
        if i :| 0 <= i < |later| && s.TextOf(later[i]) == c.text {
          assert items[i + 1] == later[i];
        }
      }
    }
  }

  lemma {:induction false} AllOfText(s: Server, c: Cell, items: seq<Arg>)
    requires c.Null? || c.TextCell?
    ensures AllOf(s, c, NeOp, items) ==
      if items == [] then True
      else if c.Null? then Unknown
      else Of(!exists i :: 0 <= i < |items| && s.TextOf(items[i]) == c.text)
  {
    if items != [] {
      AllOfText(s, c, items[1..]);
      if c.TextCell? {
        var later := items[1..];
        if i :| 0 <= i < |items| && s.TextOf(items[i]) == c.text {
          assert i > 0 ==> later[i - 1] == items[i];
        }
        if i :| 0 <= i < |later| && s.TextOf(later[i]) == c.text {
          assert items[i + 1] == later[i];
        }
      }
    }
  }

  lemma OpsDistinct()
    ensures OP_CONTAINS != OP_NOT_CONTAINS && OP_CONTAINS != OP_EQ && OP_CONTAINS != OP_NE && OP_CONTAINS != OP_IN && OP_CONTAINS != OP_NOT_IN && OP_CONTAINS != OP_EMPTY && OP_CONTAINS != OP_NOT_EMPTY
    ensures OP_NOT_CONTAINS != OP_EQ && OP_NOT_CONTAINS != OP_NE && OP_NOT_CONTAINS != OP_IN && OP_NOT_CONTAINS != OP_NOT_IN && OP_NOT_CONTAINS != OP_EMPTY && OP_NOT_CONTAINS != OP_NOT_EMPTY
    ensures OP_EQ != OP_NE && OP_EQ != OP_IN && OP_EQ != OP_NOT_IN && OP_EQ != OP_EMPTY && OP_EQ != OP_NOT_EMPTY
    ensures OP_NE != OP_IN && OP_NE != OP_NOT_IN && OP_NE != OP_EMPTY && OP_NE != OP_NOT_EMPTY
    ensures OP_IN != OP_NOT_IN && OP_IN != OP_EMPTY && OP_IN != OP_NOT_EMPTY
    ensures OP_NOT_IN != OP_EMPTY && OP_NOT_IN != OP_NOT_EMPTY
    ensures OP_EMPTY != OP_NOT_EMPTY
  {
    assert OP_CONTAINS[0] != OP_EQ[0];
    assert OP_NOT_CONTAINS[1] != OP_NE[1];
    assert OP_NOT_CONTAINS[0] != OP_IN[0];
    assert OP_NE[0] != OP_IN[0];
    assert OP_NOT_IN[0] != OP_EMPTY[0];
  }

  /** The values of a list, one by one. */
  lemma {:induction false} ResolvedList(list: seq<Value>, ctx: EvalContext)
    requires ResolveAll(list, ctx).Ok?
    ensures forall i :: 0 <= i < |list| ==> ResolveAll(list, ctx).value[i] == LiteralArg(list[i], ctx)
  {
    if list != [] {
      LiteralValue(list[0], ctx);
      ResolvedList(list[1..], ctx);
      hide ResolveScalar, LiteralArg;
    }
  }

  lemma SomeLiteral(list: seq<Value>, ctx: EvalContext, s: Server, text: string)
    requires ResolveAll(list, ctx).Ok?
    ensures
      var vals := ResolveAll(list, ctx).value;
      (exists i :: 0 <= i < |vals| && s.TextOf(vals[i]) == text) <==>
      exists i :: 0 <= i < |list| && s.TextOf(LiteralArg(list[i], ctx)) == text
  {
    hide LiteralArg, ResolveAll;
    ResolvedList(list, ctx);
    var vals := ResolveAll(list, ctx).value;
    if i :| 0 <= i < |vals| && s.TextOf(vals[i]) == text {
      assert s.TextOf(LiteralArg(list[i], ctx)) == text;
    }
    if i :| 0 <= i < |list| && s.TextOf(LiteralArg(list[i], ctx)) == text {
      assert s.TextOf(vals[i]) == text;
    }
  }

  lemma TextEval(c: Expr, f: Field, ctx: EvalContext, n: int, s: Server, row: Row, args: seq<Arg>)
    requires c.Comparison? && (f.kind == KText || f.kind == KID) && OpAllowed(f, c.field, c.op) && TextCmp(c, f, ctx, n).Ok?
    requires CellOk(row(f.column), f.kind)
    requires KeepsMeta(s.fold) && Bound(args, n, TextCmp(c, f, ctx, n).value.args)
    ensures Eval(s, row, TextSql(c, f, n), args) == TextMeaning(c, row(f.column), ctx, s)
  {
    hide Bound, KeepsMeta, ContainsTest, CompareTest, ListTest, EmptyTest, LiteralArg, EmptySql, ResolveAll, EscapeLike;
    var cell := row(f.column);
    var vals := TextCmp(c, f, ctx, n).value.args;
    if vals != [] {
      BoundFirst(args, n, vals);
    }
    OpsDistinct();
    if c.op == OP_CONTAINS || c.op == OP_NOT_CONTAINS {
      if cell.TextCell? {
        ContainsPatternFolded(s.fold, cell.text, c.value.value.raw);
      }
    } else if c.op == OP_IN || c.op == OP_NOT_IN {
      ListEval(c, cell, ctx, s);
    } else if c.op == OP_EQ || c.op == OP_NE {
      LiteralValue(c.value.value, ctx);
    } else {
      EmptyEval(f.column, s, row, args);
    }
  }

  lemma ListEval(c: Expr, cell: Cell, ctx: EvalContext, s: Server)
    requires c.Comparison? && (c.op == OP_IN || c.op == OP_NOT_IN) && ResolveAll(c.list, ctx).Ok?
    requires cell.Null? || cell.TextCell?
    ensures
      var items := ResolveAll(c.list, ctx).value;
      TextMeaning(c, cell, ctx, s) == if c.op == OP_IN then AnyOf(s, cell, EqOp, items) else AllOf(s, cell, NeOp, items)
  {
    hide LiteralArg, ResolveAll;
    OpsDistinct();
    var items := ResolveAll(c.list, ctx).value;
    AnyOfText(s, cell, items);
    AllOfText(s, cell, items);
    assert |c.list| == 0 ==> c.list == [] && items == [];
    if cell.TextCell? {
      SomeLiteral(c.list, ctx, s, cell.text);
    }
  }

  lemma EmptyEval(col: string, s: Server, row: Row, args: seq<Arg>)
    requires row(col).Null? || row(col).TextCell?
    ensures Eval(s, row, EmptySql(col), args) == Of(row(col) == Null || row(col) == TextCell(""))
  {
    assert Eval(s, row, SCompare(col, EqOp, Text("")), args) == CompareCell(s, row(col), EqOp, TextArg(""));
  }

  /** The operator is emitted as it was written, and the server reads it that way. */
  lemma OperatorReads(op: string, m: int, n: int)
    requires op in {"=", "!=", ">", ">=", "<", "<="}
    ensures ComparatorText(ComparatorOf(op)) == op
    ensures CompareInts(m, ComparatorOf(op), n) == Relates(op, m, n)
  {
  }

  lemma NumberEval(c: Expr, f: Field, ctx: EvalContext, n: int, s: Server, row: Row, args: seq<Arg>)
    requires c.Comparison? && f.kind == KInt && OpAllowed(f, c.field, c.op) && ScalarCmp(c, f, ctx, n).Ok?
    requires CellOk(row(f.column), f.kind) && Bound(args, n, ScalarCmp(c, f, ctx, n).value.args)
    ensures Eval(s, row, SCompare(f.column, ComparatorOf(c.op), Arg(n)), args) == NumberMeaning(c, row(f.column), ctx, s)
  {
    BoundFirst(args, n, ScalarCmp(c, f, ctx, n).value.args);
    LiteralValue(c.value.value, ctx);
    hide Bound, ComparatorOf, CompareTest, CompareInts, Relates, ResolveScalar, LiteralArg;
    if row(f.column).IntCell? {
      OperatorReads(c.op, row(f.column).n, s.asInt(LiteralArg(c.value.value, ctx)));
    }
  }

  lemma DateEval(c: Expr, f: Field, ctx: EvalContext, n: int, s: Server, row: Row, args: seq<Arg>)
    requires c.Comparison? && f.kind == KDate && OpAllowed(f, c.field, c.op) && ScalarCmp(c, f, ctx, n).Ok?
    requires CellOk(row(f.column), f.kind) && Bound(args, n, ScalarCmp(c, f, ctx, n).value.args)
    ensures Eval(s, row, SCompare(f.column, ComparatorOf(c.op), Arg(n)), args) == DateMeaning(c, row(f.column), ctx)
  {
    BoundFirst(args, n, ScalarCmp(c, f, ctx, n).value.args);
    DateLiteral(c.value.value.raw, ctx);
    hide Bound, ComparatorOf, CompareTest, CompareInts, Relates, ResolveDate, Instant;
    if row(f.column).TimeCell? {
      OperatorReads(c.op, row(f.column).time, Instant(c.value.value.raw, ctx).value);
    }
  }

  // ---- tags

  lemma {:induction false} TagValuesText(list: seq<Value>, prefix: string, ctx: EvalContext)
    requires TagValues(list, prefix, ctx).Ok?
    ensures forall i :: 0 <= i < |list| ==> TagValues(list, prefix, ctx).value[i] == TextArg(prefix + list[i].raw)
  {
    if list != [] {
      TagValuesText(list[1..], prefix, ctx);
      var rest := TagValues(list[1..], prefix, ctx).value;
      forall i | 0 <= i < |list| ensures TagValues(list, prefix, ctx).value[i] == TextArg(prefix + list[i].raw) {
        if i > 0 {
          assert rest[i - 1] == TextArg(prefix + list[1..][i - 1].raw);
        }
      }
    }
  }

  ghost predicate SomeTag(items: seq<string>, vals: seq<Arg>) {
    exists i :: 0 <= i < |vals| && vals[i].TextArg? && vals[i].text in items
  }

  predicate AllText(vals: seq<Arg>) {
    forall i :: 0 <= i < |vals| ==> vals[i].TextArg?
  }

  lemma {:induction false} TagChainEval(left: Sql, n: int, vals: seq<Arg>, s: Server, row: Row, args: seq<Arg>)
    requires Bound(args, n, vals) && AllText(vals)
    requires row(TAGS).Null? || row(TAGS).ArrayCell?
    ensures Eval(s, row, TagChain(left, n, |vals|), args) ==
      if vals == [] then Eval(s, row, left, args)
      else if row(TAGS).Null? then Disj(Eval(s, row, left, args), Unknown)
      else Disj(Eval(s, row, left, args), Of(SomeTag(row(TAGS).items, vals)))
    decreases |vals|
  {
    if vals != [] {
      BoundFirst(args, n, vals);
      assert vals == [vals[0]] + vals[1..];
      BoundSplit(args, n, [vals[0]], vals[1..]);
      var next := SOr(left, SContains(TAGS, n));
      TagChainEval(next, n + 1, vals[1..], s, row, args);
      if row(TAGS).ArrayCell? {
        SomeTagSplit(row(TAGS).items, vals);
      }
      hide Bound, SomeTag;
    }
  }

  lemma SomeTagSplit(items: seq<string>, vals: seq<Arg>)
    requires vals != [] && AllText(vals)
    ensures SomeTag(items, vals) <==> vals[0].text in items || (vals[1..] != [] && SomeTag(items, vals[1..]))
  {
    if SomeTag(items, vals) && vals[0].text !in items {
      var i :| 0 <= i < |vals| && vals[i].TextArg? && vals[i].text in items;
      assert vals[1..][i - 1] == vals[i];
    }
    if vals[1..] != [] && SomeTag(items, vals[1..]) {
      var i :| 0 <= i < |vals[1..]| && vals[1..][i].TextArg? && vals[1..][i].text in items;
      assert vals[i + 1] == vals[1..][i];
    }
  }

  /** The prefixes of the tag fields hold no metacharacter. */
  lemma PrefixesOrdinary(name: string)
    requires LookupField(name).Some?
    ensures forall i :: 0 <= i < |LookupField(name).value.prefix| ==> !IsMeta(LookupField(name).value.prefix[i])
  {
  }

  lemma {:induction false} SomeItemPrefix(s: Server, row: Row, items: seq<string>, prefix: string, n: int, args: seq<Arg>)
    requires forall i :: 0 <= i < |prefix| ==> !IsMeta(prefix[i])
    requires ArgAt(args, n) == TextArg(prefix + "%")
    ensures SomeItem(s, row, "t", items, SLike("t", n), args) == Of(exists i :: 0 <= i < |items| && prefix <= items[i])
    decreases |items|
  {
    if items != [] {
      PrefixPattern(items[0], prefix);
      var later := items[1..];
      SomeItemPrefix(s, row, later, prefix, n, args);
      var here := (c: string) => if c == "t" then TextCell(items[0]) else row(c);
      assert here("t") == TextCell(items[0]);
      assert Eval(s, here, SLike("t", n), args) == Of(prefix <= items[0]);
      if i :| 0 <= i < |items| && prefix <= items[i] {
        assert i > 0 ==> later[i - 1] == items[i];
      }
      if i :| 0 <= i < |later| && prefix <= later[i] {
        assert items[i + 1] == later[i];
      }
    }
  }

  lemma TagEmptyEval(f: Field, n: int, s: Server, row: Row, args: seq<Arg>)
    requires forall i :: 0 <= i < |f.prefix| ==> !IsMeta(f.prefix[i])
    requires row(TAGS).Null? || row(TAGS).ArrayCell?
    requires Bound(args, n, TagEmpty(f, n).args)
    ensures Eval(s, row, TagEmptySql(f, n), args) ==
      Of(!row(TAGS).ArrayCell? || forall i :: 0 <= i < |row(TAGS).items| ==> !(f.prefix <= row(TAGS).items[i]))
  {
    var cell := row(TAGS);
    if f.prefix == "" {
      if cell.ArrayCell? && cell.items != [] {
        assert f.prefix <= cell.items[0];
      }
    } else {
      BoundFirst(args, n, TagEmpty(f, n).args);
      if cell.ArrayCell? {
        SomeItemPrefix(s, row, cell.items, f.prefix, n, args);
      }
    }
  }

  lemma TagEval(c: Expr, f: Field, ctx: EvalContext, n: int, s: Server, row: Row, args: seq<Arg>)
    requires c.Comparison? && f.kind == KTagPrefix && OpAllowed(f, c.field, c.op)
    requires TagCmp(c, f, ctx, n).Ok?
    requires c.op == OP_IN || c.op == OP_NOT_IN ==> c.list != []
    requires forall i :: 0 <= i < |f.prefix| ==> !IsMeta(f.prefix[i])
    requires row(TAGS).Null? || row(TAGS).ArrayCell?
    requires Bound(args, n, TagCmp(c, f, ctx, n).value.args)
    ensures Eval(s, row, TagSql(c, f, n), args) == TagMeaning(c, f.prefix, row(TAGS))
  {
    OpsDistinct();
    hide Bound, TagCmp, TagSql, TagMeaning, Eval;
    if c.op == OP_EQ || c.op == OP_NE {
      TagOneCase(c, f, ctx, n, s, row, args);
    } else if c.op == OP_IN || c.op == OP_NOT_IN {
      TagListCase(c, f, ctx, n, s, row, args);
    } else {
      TagEmptyCase(c, f, ctx, n, s, row, args);
    }
  }

  lemma TagOneCase(c: Expr, f: Field, ctx: EvalContext, n: int, s: Server, row: Row, args: seq<Arg>)
    requires c.Comparison? && f.kind == KTagPrefix && OpAllowed(f, c.field, c.op)
    requires TagCmp(c, f, ctx, n).Ok?
    requires c.op == OP_EQ || c.op == OP_NE
    requires row(TAGS).Null? || row(TAGS).ArrayCell?
    requires Bound(args, n, TagCmp(c, f, ctx, n).value.args)
    ensures Eval(s, row, TagSql(c, f, n), args) == TagMeaning(c, f.prefix, row(TAGS))
  {
    OpsDistinct();
    hide Bound, TagTest, OpAllowed, TagValue;
    TagOneEval(c, f, ctx, n, s, row, args);
  }

  lemma TagListCase(c: Expr, f: Field, ctx: EvalContext, n: int, s: Server, row: Row, args: seq<Arg>)
    requires c.Comparison? && f.kind == KTagPrefix && OpAllowed(f, c.field, c.op)
    requires TagCmp(c, f, ctx, n).Ok?
    requires (c.op == OP_IN || c.op == OP_NOT_IN) && c.list != []
    requires row(TAGS).Null? || row(TAGS).ArrayCell?
    requires Bound(args, n, TagCmp(c, f, ctx, n).value.args)
    ensures Eval(s, row, TagSql(c, f, n), args) == TagMeaning(c, f.prefix, row(TAGS))
  {
    OpsDistinct();
    hide Bound, TagChain, TagTests, TagValues, OpAllowed;
    TagListEval(c.list, f, ctx, n, s, row, args);
  }

  lemma TagEmptyCase(c: Expr, f: Field, ctx: EvalContext, n: int, s: Server, row: Row, args: seq<Arg>)
    requires c.Comparison? && f.kind == KTagPrefix && OpAllowed(f, c.field, c.op)
    requires TagCmp(c, f, ctx, n).Ok?
    requires c.op == OP_EMPTY || c.op == OP_NOT_EMPTY
    requires forall i :: 0 <= i < |f.prefix| ==> !IsMeta(f.prefix[i])
    requires row(TAGS).Null? || row(TAGS).ArrayCell?
    requires Bound(args, n, TagCmp(c, f, ctx, n).value.args)
    ensures Eval(s, row, TagSql(c, f, n), args) == TagMeaning(c, f.prefix, row(TAGS))
  {
    OpsDistinct();
    hide Bound, TagEmpty, TagEmptySql, OpAllowed;
    TagEmptyEval(f, n, s, row, args);
  }

  lemma TagOneEval(c: Expr, f: Field, ctx: EvalContext, n: int, s: Server, row: Row, args: seq<Arg>)
    requires c.Comparison? && (c.op == OP_EQ || c.op == OP_NE) && TagCmp(c, f, ctx, n).Ok? && c.value.Some?
    requires row(TAGS).Null? || row(TAGS).ArrayCell?
    requires Bound(args, n, TagCmp(c, f, ctx, n).value.args)
    ensures Eval(s, row, SContains(TAGS, n), args) ==
      if row(TAGS).Null? then Unknown else Of(f.prefix + c.value.value.raw in row(TAGS).items)
  {
    BoundFirst(args, n, TagCmp(c, f, ctx, n).value.args);
    hide Bound;
  }

  lemma TagListEval(list: seq<Value>, f: Field, ctx: EvalContext, n: int, s: Server, row: Row, args: seq<Arg>)
    requires list != [] && TagValues(list, f.prefix, ctx).Ok?
    requires row(TAGS).Null? || row(TAGS).ArrayCell?
    requires Bound(args, n, TagValues(list, f.prefix, ctx).value)
    ensures Eval(s, row, TagChain(SContains(TAGS, n), n + 1, |list| - 1), args) ==
      if row(TAGS).Null? then Unknown
      else Of(exists i :: 0 <= i < |list| && f.prefix + list[i].raw in row(TAGS).items)
  {
    var vals := TagValues(list, f.prefix, ctx).value;
    TagValuesText(list, f.prefix, ctx);
    assert AllText(vals);
    assert vals == [vals[0]] + vals[1..];
    BoundFirst(args, n, vals);
    BoundSplit(args, n, [vals[0]], vals[1..]);
    assert AllText(vals[1..]);
    TagChainEval(SContains(TAGS, n), n + 1, vals[1..], s, row, args);
    hide Bound, SomeTag, TagChain, TagValues, AllText;
    if row(TAGS).ArrayCell? {
      SomeTagSplit(row(TAGS).items, vals);
      SomeTagList(row(TAGS).items, list, f.prefix, vals);
    }
  }

  lemma SomeTagList(items: seq<string>, list: seq<Value>, prefix: string, vals: seq<Arg>)
    requires |vals| == |list| && forall i :: 0 <= i < |list| ==> vals[i] == TextArg(prefix + list[i].raw)
    ensures SomeTag(items, vals) <==> exists i :: 0 <= i < |list| && prefix + list[i].raw in items
  {
    if SomeTag(items, vals) {
      var i :| 0 <= i < |vals| && vals[i].TextArg? && vals[i].text in items;
      assert prefix + list[i].raw in items;
    }
    if i :| 0 <= i < |list| && prefix + list[i].raw in items {
      assert vals[i].text in items;
    }
  }

  // ---- the theorem

  function PairTruth(e: Expr, a: Truth, b: Truth): Truth {
    if e.And? then Conj(a, b) else Disj(a, b)
  }

  lemma PairMeaning(e: Expr, ctx: EvalContext, s: Server, row: Row)
    requires e.And? || e.Or?
    ensures Meaning(e, ctx, s, row) == PairTruth(e, Meaning(e.l, ctx, s, row), Meaning(e.r, ctx, s, row))
  {
    hide Conj, Disj;
  }

  lemma NotMeaning(e: Expr, ctx: EvalContext, s: Server, row: Row)
    requires e.Not?
    ensures Meaning(e, ctx, s, row) == Neg(Meaning(e.x, ctx, s, row))
  {
    hide Neg;
  }

  lemma PairValue(e: Expr, s: Server, row: Row, x: Sql, y: Sql, args: seq<Arg>)
    requires e.And? || e.Or?
    ensures Eval(s, row, PairSql(e, x, y), args) == PairTruth(e, Eval(s, row, x, args), Eval(s, row, y, args))
  {
    hide Conj, Disj, Neg;
  }

  lemma NotValue(s: Server, row: Row, x: Sql, args: seq<Arg>)
    ensures Eval(s, row, SNot(x), args) == Neg(Eval(s, row, x, args))
  {
    hide Neg;
  }

  lemma {:induction false} EvalOf(e: Expr, ctx: EvalContext, n: int, s: Server, row: Row, args: seq<Arg>)
    requires Compile(e, ctx, n).Ok? && NoEmptyTagList(e)
    requires RowOk(row) && KeepsMeta(s.fold) && Bound(args, n, Compile(e, ctx, n).value.args)
    ensures Eval(s, row, SqlOf(e, ctx, n), args) == Meaning(e, ctx, s, row)
    decreases e
  {
    hide Bound, RowOk, KeepsMeta, Compile, CompileComparison, SqlOf, Meaning, Eval, NoEmptyTagList, PairSql, PairTruth, Neg;
    if e.And? || e.Or? {
      var cl, cr := PairSplit(e, ctx, n);
      var m := n + |cl.args|;
      BoundSplit(args, n, cl.args, cr.args);
      EvalOf(e.l, ctx, n, s, row, args);
      EvalOf(e.r, ctx, m, s, row, args);
      PairMeaning(e, ctx, s, row);
      PairValue(e, s, row, SqlOf(e.l, ctx, n), SqlOf(e.r, ctx, m), args);
    } else if e.Not? {
      var cx := NotSplit(e, ctx, n);
      EvalOf(e.x, ctx, n, s, row, args);
      NotMeaning(e, ctx, s, row);
      NotValue(s, row, SqlOf(e.x, ctx, n), args);
    } else {
      ComparisonCompiles(e, ctx, n);
      ComparisonEval(e, ctx, n, s, row, args);
    }
  }

  lemma ComparisonEval(c: Expr, ctx: EvalContext, n: int, s: Server, row: Row, args: seq<Arg>)
    requires c.Comparison? && CompileComparison(c, ctx, n).Ok? && NoEmptyTagList(c)
    requires RowOk(row) && KeepsMeta(s.fold) && Bound(args, n, CompileComparison(c, ctx, n).value.args)
    ensures Eval(s, row, SqlOf(c, ctx, n), args) == Meaning(c, ctx, s, row)
  {
    var f := LookupField(c.field).value;
    PrefixesOrdinary(c.field);
    FieldNamed(c.field);
    hide LookupField, TextCmp, ScalarCmp, TagCmp, TextSql, TagSql, TextMeaning, NumberMeaning, DateMeaning, TagMeaning, OpAllowed,
      Bound, KeepsMeta, Lower, KindNamed, ColumnNamed, PrefixNamed;
    match f.kind {
      case KText => TextEval(c, f, ctx, n, s, row, args);
      case KID => TextEval(c, f, ctx, n, s, row, args);
      case KInt => NumberEval(c, f, ctx, n, s, row, args);
      case KDate => DateEval(c, f, ctx, n, s, row, args);
      case KTagPrefix => TagEval(c, f, ctx, n, s, row, args);
    }
  }

  /** The emitted condition, spliced after any arguments, read by the server and
      evaluated with all arguments, is the meaning of the filter: true, false or
      unknown alike, for every row. */
  lemma MeaningPreserved(e: Expr, ctx: EvalContext, before: seq<Arg>, after: seq<Arg>, s: Server, row: Row)
    requires Compile(e, ctx, |before| + 1).Ok?
    requires NoEmptyTagList(e) && RowOk(row) && KeepsMeta(s.fold)
    ensures
      var c := Compile(e, ctx, |before| + 1).value;
      && ReadSql(c.toks).Some?
      && Eval(s, row, ReadSql(c.toks).value, before + c.args + after) == Meaning(e, ctx, s, row)
  {
    hide Bound, RowOk, KeepsMeta, Compile, NoEmptyTagList, Meaning, Eval, ReadNot, ReadSql, SqlOf;
    var n := |before| + 1;
    var c := Compile(e, ctx, n).value;
    var args := before + c.args + after;
    BoundBetween(before, c.args, after);
    CompiledReadsAll(e, ctx, n);
    EvalOf(e, ctx, n, s, row, args);
  }

  lemma BoundBetween(before: seq<Arg>, args: seq<Arg>, after: seq<Arg>)
    ensures Bound(before + args + after, |before| + 1, args)
  {
  }

  lemma CompiledReadsAll(e: Expr, ctx: EvalContext, n: int)
    requires Compile(e, ctx, n).Ok? && NoEmptyTagList(e)
    ensures ReadSql(Compile(e, ctx, n).value.toks) == Some(SqlOf(e, ctx, n))
  {
    hide Compile, NoEmptyTagList, ReadNot, SqlOf;
    var c := Compile(e, ctx, n).value;
    CompiledReads(e, ctx, n, []);
    assert c.toks + [] == c.toks;
    ClosesAnd(c.toks, SqlOf(e, ctx, n), []);
    ClosesOr(c.toks, SqlOf(e, ctx, n), []);
  }

  // ---- and only conditions without an empty tag list can be read at all

  lemma EmptyGroupUnreadable(rest: seq<Tok>)
    ensures ReadNot([Open, Close] + rest).None? && ReadNot([NotKw, Open, Close] + rest).None?
  {
    var ts := [Open, Close] + rest;
    assert ts[1..][0] == Close;
    assert ReadNot(ts[1..]).None?;
    assert ReadAnd(ts[1..]).None?;
    assert ReadOr(ts[1..]).None?;
    assert ([NotKw, Open, Close] + rest)[1..] == ts;
    hide ReadColumnTest, ReadOr;
  }

  lemma UnreadableStart(ts: seq<Tok>)
    requires ReadNot(ts).None?
    ensures ReadOr(ts).None? && ReadNot([NotKw] + ts).None? && ReadNot([Open] + ts).None?
  {
    assert ReadAnd(ts).None?;
    assert ReadOr(ts).None?;
    assert ([NotKw] + ts)[1..] == ts && ([Open] + ts)[1..] == ts;
    assert ([Open] + ts)[0] == Open;
    hide ReadColumnTest, ReadOr;
  }

  lemma UnreadableEnd(ts: seq<Tok>, x: Sql, connective: Tok, us: seq<Tok>)
    requires connective == AndKw || connective == OrKw
    requires ReadNot(ts) == Some(Read(x, [connective] + us)) && ReadNot(us).None?
    ensures ReadNot([Open] + ts).None?
  {
    var tail := [connective] + us;
    assert tail[1..] == us && tail[0] == connective;
    assert ReadAnd(us).None?;
    if connective == AndKw {
      assert ReadAndTail(x, tail).None?;
      assert ReadAnd(ts).None?;
    } else {
      ClosesAnd(ts, x, tail);
      assert ReadOrTail(x, tail).None?;
    }
    assert ReadOr(ts).None?;
    assert ([Open] + ts)[1..] == ts && ([Open] + ts)[0] == Open;
    hide ReadColumnTest, ReadOr;
  }

  lemma {:induction false} CompiledUnreadable(e: Expr, ctx: EvalContext, n: int, rest: seq<Tok>)
    requires Compile(e, ctx, n).Ok? && !NoEmptyTagList(e)
    ensures ReadNot(Compile(e, ctx, n).value.toks + rest).None?
    decreases e
  {
    hide ReadNot, ReadOr, CompileComparison, Compile, SqlOf, NoEmptyTagList;
    if e.And? || e.Or? {
      var cl, cr := PairSplit(e, ctx, n);
      var us := cr.toks + ([Close] + rest);
      var ts := cl.toks + ([Connective(e)] + us);
      if NoEmptyTagList(e.l) {
        CompiledReads(e.l, ctx, n, [Connective(e)] + us);
        CompiledUnreadable(e.r, ctx, n + |cl.args|, [Close] + rest);
        UnreadableEnd(ts, SqlOf(e.l, ctx, n), Connective(e), us);
      } else {
        CompiledUnreadable(e.l, ctx, n, [Connective(e)] + us);
        UnreadableStart(ts);
      }
      assert [Open] + cl.toks + [Connective(e)] + cr.toks + [Close] + rest == [Open] + ts;
    } else if e.Not? {
      var cx := NotSplit(e, ctx, n);
      CompiledUnreadable(e.x, ctx, n, [Close] + rest);
      NotGroupUnreadable(cx.toks, rest);
    } else {
      ComparisonCompiles(e, ctx, n);
      EmptyListUnreadable(e, ctx, n, rest);
    }
  }

  lemma NotGroupUnreadable(ts: seq<Tok>, rest: seq<Tok>)
    requires ReadNot(ts + ([Close] + rest)).None?
    ensures ReadNot([Open, NotKw] + ts + [Close] + rest).None?
  {
    hide ReadNot, ReadOr;
    var tail := ts + ([Close] + rest);
    UnreadableStart(tail);
    UnreadableStart([NotKw] + tail);
    assert [Open, NotKw] + ts + [Close] + rest == [Open] + ([NotKw] + tail);
  }

  lemma EmptyListUnreadable(c: Expr, ctx: EvalContext, n: int, rest: seq<Tok>)
    requires c.Comparison? && CompileComparison(c, ctx, n).Ok? && !NoEmptyTagList(c)
    ensures ReadNot(CompileComparison(c, ctx, n).value.toks + rest).None?
  {
    OpsDistinct();
    EmptyGroupUnreadable(rest);
    hide ReadNot, LookupField, OpAllowed, TagTest;
    assert [Open] + [] + [Close] == [Open, Close];
    assert [NotKw] + [Open, Close] == [NotKw, Open, Close];
  }

  /** The server can read the emitted condition exactly when no tag list in the
      filter is empty. */
  lemma ReadableIffNoEmptyTagList(e: Expr, ctx: EvalContext, n: int)
    requires Compile(e, ctx, n).Ok?
    ensures ReadSql(Compile(e, ctx, n).value.toks).Some? <==> NoEmptyTagList(e)
  {
    var ts := Compile(e, ctx, n).value.toks;
    assert ts + [] == ts;
    if NoEmptyTagList(e) {
      CompiledReads(e, ctx, n, []);
      hide ReadNot, Compile, NoEmptyTagList, SqlOf;
      ClosesAnd(ts, SqlOf(e, ctx, n), []);
      ClosesOr(ts, SqlOf(e, ctx, n), []);
    } else {
      CompiledUnreadable(e, ctx, n, []);
      UnreadableStart(ts);
      hide ReadNot, Compile, NoEmptyTagList;
    }
  }

  lemma {:induction false} OkListsNonempty(e: Expr)
    requires ExprOk(e)
    ensures NoEmptyTagList(e) && NoEmptyList(e)
  {
    match e {
      case And(l, r) =>
        OkListsNonempty(l);
        OkListsNonempty(r);
      case Or(l, r) =>
        OkListsNonempty(l);
        OkListsNonempty(r);
      case Not(x) => OkListsNonempty(x);
      case Comparison(_, op, _, _) =>
        hide LookupField, ValueOk, ValuesOk, IsWord;
        assert OP_IN[0] == 'i' && OP_NOT_IN[0] == 'n';
    }
  }

  /** Every list that is asked for has a value. */
  predicate NoEmptyList(e: Expr) {
    match e
    case And(l, r) => NoEmptyList(l) && NoEmptyList(r)
    case Or(l, r) => NoEmptyList(l) && NoEmptyList(r)
    case Not(x) => NoEmptyList(x)
    case Comparison(_, op, _, list) => op == OP_IN || op == OP_NOT_IN ==> list != []
  }

  /** No accepted text has an empty list anywhere, so each compiles to a condition the
      server can read. */
  lemma ParsedListsNonempty(text: string)
    requires Parse(text).Ok?
    ensures NoEmptyList(Parse(text).value.where) && NoEmptyTagList(Parse(text).value.where)
  {
    hide Parse, ExprOk, NoEmptyList, NoEmptyTagList;
    ParseImage(text);
    OkListsNonempty(Parse(text).value.where);
  }

  /** From text to truth: what a parsed filter selects is what its SQL selects. */
  lemma ParsedMeaningPreserved(text: string, ctx: EvalContext, s: Server, row: Row)
    requires Parse(text).Ok? && ToSql(Parse(text).value, ctx, 0).Ok?
    requires RowOk(row) && KeepsMeta(s.fold)
    ensures
      var sql := ToSql(Parse(text).value, ctx, 0).value;
      && ReadSql(sql.where).Some?
      && Eval(s, row, ReadSql(sql.where).value, sql.args) == Meaning(Parse(text).value.where, ctx, s, row)
  {
    hide Parse, Compile, RowOk, KeepsMeta, Meaning, ReadSql, Eval, NoEmptyTagList, ExprOk;
    var e := Parse(text).value.where;
    ParsedListsNonempty(text);
    MeaningPreserved(e, ctx, [], [], s, row);
    assert [] + Compile(e, ctx, 1).value.args + [] == Compile(e, ctx, 1).value.args;
  }
}
