/** The WHERE clause of full-text search, spliced together from a filter
    (internal/store/postgres/search.go). */
module FtsWhere {
  import opened Wrappers
  import opened HqlAst
  import opened HqlSchema
  import opened HqlSql
  import opened HqlSqlRead
  import opened HqlMeaning
  import opened HqlPreserved
  import opened Like

  datatype Filter = Filter(
    typ: string,
    tag: string,
    asOfEpoch: Option<int>,
    asOfTime: Option<int>,
    includeTypes: seq<string>,
    excludeIds: seq<string>,
    domains: seq<string>,
    hql: Option<Query>,
    ctx: EvalContext)

  function CombinedTypes(f: Filter): (r: seq<string>)
    ensures forall t :: t in r <==> (t == f.typ && t != "") || t in f.includeTypes
  {
    if f.typ == "" then f.includeTypes else [f.typ] + f.includeTypes
  }

  function Texts(ts: seq<string>): (r: Arg)
    ensures r.ListArg? && |r.items| == |ts|
  {
    ListArg(seq(|ts|, i requires 0 <= i < |ts| => TextArg(ts[i])))
  }

  // ---- specification: the clause grows by one conjunct at a time

  function AndAlso(c: Compiled, toks: seq<Tok>, args: seq<Arg>): Compiled {
    Compiled(c.toks + [AndKw] + toks, c.args + args)
  }

  function LookupToks(k: Lookup, n: int): seq<Tok> {
    [LookupTest(k), Open, Placeholder(n), Close]
  }

  function Next(c: Compiled): int {
    |c.args| + 1
  }

  function WithTypes(c: Compiled, f: Filter): Compiled {
    if CombinedTypes(f) == [] then c else AndAlso(c, ListTest("type", false, Next(c)), [Texts(CombinedTypes(f))])
  }

  function WithTag(c: Compiled, f: Filter): Compiled {
    if f.tag == "" then c else AndAlso(c, TagTest(Next(c)), [TextArg(f.tag)])
  }

  function WithExclude(c: Compiled, f: Filter): Compiled {
    if f.excludeIds == [] then c else AndAlso(c, ListTest("id", true, Next(c)), [Texts(f.excludeIds)])
  }

  function WithDomains(c: Compiled, f: Filter): Compiled {
    if f.domains == [] then c else AndAlso(c, ListTest("domain", false, Next(c)), [Texts(f.domains)])
  }

  function WithAsOf(c: Compiled, f: Filter): Compiled {
    if f.asOfEpoch.Some? then AndAlso(c, LookupToks(AsOfEpoch, Next(c)), [IntArg(f.asOfEpoch.value)])
    else if f.asOfTime.Some? then AndAlso(c, LookupToks(AsOfTime, Next(c)), [TimeArg(f.asOfTime.value)])
    else c
  }

  function WithHql(c: Compiled, f: Filter): Result<Compiled, SqlError> {
    if f.hql.None? then Ok(c)
    else
      match ToSql(f.hql.value, f.ctx, |c.args|)
      case Err(e) => Err(e)
      case Ok(sql) => Ok(AndAlso(c, [Open] + sql.where + [Close], sql.args))
  }

  function PlainClause(q: string, f: Filter): Compiled {
    WithAsOf(WithDomains(WithExclude(WithTag(WithTypes(
      Compiled(LookupToks(FtsMatch, 1), [TextArg(q)]), f), f), f), f), f)
  }

  function Clause(q: string, f: Filter): Result<Compiled, SqlError> {
    WithHql(PlainClause(q, f), f)
  }

  method BuildFTSWhere(q: string, f: Filter) returns (r: Result<Compiled, SqlError>)
    ensures r == Clause(q, f)
  {
    hide ListTest, TagTest, LookupToks, Texts, CombinedTypes, ToSql;
    var args := [TextArg(q)];
    var where := LookupToks(FtsMatch, 1);
    var types := CombinedTypes(f);
    ghost var done := Compiled(where, args);
    if |types| > 0 {
      args := args + [Texts(types)];
      where := where + [AndKw] + ListTest("type", false, |args|);
    }
    done := WithTypes(done, f);
    assert done == Compiled(where, args);
    if f.tag != "" {
      args := args + [TextArg(f.tag)];
      where := where + [AndKw] + TagTest(|args|);
    }
    done := WithTag(done, f);
    assert done == Compiled(where, args);
    if |f.excludeIds| > 0 {
      args := args + [Texts(f.excludeIds)];
      where := where + [AndKw] + ListTest("id", true, |args|);
    }
    done := WithExclude(done, f);
    assert done == Compiled(where, args);
    if |f.domains| > 0 {
      args := args + [Texts(f.domains)];
      where := where + [AndKw] + ListTest("domain", false, |args|);
    }
    done := WithDomains(done, f);
    assert done == Compiled(where, args);
    if f.asOfEpoch.Some? {
      args := args + [IntArg(f.asOfEpoch.value)];
      where := where + [AndKw] + LookupToks(AsOfEpoch, |args|);
    } else if f.asOfTime.Some? {
      args := args + [TimeArg(f.asOfTime.value)];
      where := where + [AndKw] + LookupToks(AsOfTime, |args|);
    }
    done := WithAsOf(done, f);
    assert done == Compiled(where, args);
    if f.hql.Some? {
      var sql := ToSQLAt(f.hql.value, f.ctx, |args|);
      if sql.Err? {
        return Err(sql.error);
      }
      where := where + [AndKw] + ([Open] + sql.value.where + [Close]);
      args := args + sql.value.args;
    }
    return Ok(Compiled(where, args));
  }

  // ---- what every step keeps

  /** A condition that AND continues: it reads as `tree`, whatever follows. */
  ghost predicate Chains(ts: seq<Tok>, tree: Sql) {
    forall rest: seq<Tok> :: ReadAnd(ts + rest) == ReadAndTail(tree, rest)
  }

  ghost predicate Leaf(ts: seq<Tok>, x: Sql) {
    forall rest: seq<Tok> :: ReadNot(ts + rest) == Some(Read(x, rest))
  }

  ghost predicate Evaluates(s: Server, row: Row, x: Sql, args: seq<Arg>, t: Truth) {
    forall more: seq<Arg> :: Eval(s, row, x, args + more) == t
  }

  /** The clause reads as one condition with the given truth. */
  ghost predicate Good(c: Compiled, tree: Sql, s: Server, row: Row, t: Truth) {
    Chains(c.toks, tree) && Evaluates(s, row, tree, c.args, t)
  }

  /** Its numbers are 1, 2, ..., one for each argument, from left to right. */
  ghost predicate Numbered(c: Compiled) {
    Numbers(c.toks) == Range(1, |c.args|)
  }

  lemma ChainsAnd(ts: seq<Tok>, tree: Sql, us: seq<Tok>, x: Sql)
    requires Chains(ts, tree) && Leaf(us, x)
    ensures Chains(ts + [AndKw] + us, SAnd(tree, x))
  {
    forall rest: seq<Tok> ensures ReadAnd(ts + [AndKw] + us + rest) == ReadAndTail(SAnd(tree, x), rest) {
      var tail := [AndKw] + (us + rest);
      assert ts + [AndKw] + us + rest == ts + tail;
      assert ReadAnd(ts + tail) == ReadAndTail(tree, tail);
      assert ReadNot(us + rest) == Some(Read(x, rest));
      AndTailTurn(tree, us + rest, x, rest);
    }
  }

  lemma AndTailTurn(left: Sql, us: seq<Tok>, r: Sql, after: seq<Tok>)
    requires ReadNot(us) == Some(Read(r, after))
    ensures ReadAndTail(left, [AndKw] + us) == ReadAndTail(SAnd(left, r), after)
  {
    assert ([AndKw] + us)[1..] == us;
    hide ReadNot;
  }

  lemma EvaluatesAnd(s: Server, row: Row, x: Sql, y: Sql, a: seq<Arg>, b: seq<Arg>, t: Truth, u: Truth)
    requires Evaluates(s, row, x, a, t) && Evaluates(s, row, y, a + b, u)
    ensures Evaluates(s, row, SAnd(x, y), a + b, Conj(t, u))
  {
    forall more: seq<Arg> ensures Eval(s, row, SAnd(x, y), a + b + more) == Conj(t, u) {
      assert a + b + more == a + (b + more);
      assert Eval(s, row, x, a + (b + more)) == t;
      assert Eval(s, row, y, a + b + more) == u;
    }
  }

  lemma GoodAnd(c: Compiled, tree: Sql, s: Server, row: Row, t: Truth, us: seq<Tok>, vals: seq<Arg>, x: Sql, u: Truth)
    requires Good(c, tree, s, row, t) && Leaf(us, x)
    requires Evaluates(s, row, x, c.args + vals, u)
    ensures Good(AndAlso(c, us, vals), SAnd(tree, x), s, row, Conj(t, u))
  {
    hide Chains, Evaluates, Leaf, Conj, Eval;
    ChainsAnd(c.toks, tree, us, x);
    EvaluatesAnd(s, row, tree, x, c.args, vals, t, u);
  }

  lemma NumberedAnd(c: Compiled, us: seq<Tok>, vals: seq<Arg>)
    requires Numbered(c) && Numbers(us) == Range(Next(c), |vals|)
    ensures Numbered(AndAlso(c, us, vals))
  {
    hide Numbers, Range;
    NumbersConcat(c.toks + [AndKw], us);
    NumbersConcat(c.toks, [AndKw]);
    NumbersPlain([AndKw]);
    RangeSplit(1, |c.args|, |vals|);
    assert Range(1, |c.args|) + [] == Range(1, |c.args|);
  }

  lemma NumberedOne(c: Compiled, us: seq<Tok>, v: Arg)
    requires Numbered(c) && Numbers(us) == [Next(c)]
    ensures Numbered(AndAlso(c, us, [v]))
  {
    RangeSmall(Next(c));
    hide Numbers, Range, Numbered, AndAlso;
    NumberedAnd(c, us, [v]);
  }

  lemma LookupNumbers(k: Lookup, n: int)
    ensures Numbers(LookupToks(k, n)) == [n]
  {
    NumbersOne([LookupTest(k), Open], n, [Close]);
    assert LookupToks(k, n) == [LookupTest(k), Open] + [Placeholder(n)] + [Close];
  }

  lemma PlainNumbered(q: string, f: Filter)
    ensures Numbered(PlainClause(q, f))
  {
    hide Numbers, Range, Numbered, AndAlso, ListTest, TagTest, LookupToks, Texts, CombinedTypes;
    var c0 := Compiled(LookupToks(FtsMatch, 1), [TextArg(q)]);
    StartNumbered(q);
    ListNumbers("type", false, Next(c0));
    if CombinedTypes(f) != [] {
      NumberedOne(c0, ListTest("type", false, Next(c0)), Texts(CombinedTypes(f)));
    }
    var c1 := WithTypes(c0, f);
    TagNumbers(Next(c1));
    if f.tag != "" {
      NumberedOne(c1, TagTest(Next(c1)), TextArg(f.tag));
    }
    var c2 := WithTag(c1, f);
    ListNumbers("id", true, Next(c2));
    if f.excludeIds != [] {
      NumberedOne(c2, ListTest("id", true, Next(c2)), Texts(f.excludeIds));
    }
    LastNumbered(WithExclude(c2, f), f);
  }

  lemma StartNumbered(q: string)
    ensures Numbered(Compiled(LookupToks(FtsMatch, 1), [TextArg(q)]))
  {
    LookupNumbers(FtsMatch, 1);
    RangeSmall(1);
    hide Numbers, Range;
  }

  lemma LastNumbered(c: Compiled, f: Filter)
    requires Numbered(c)
    ensures Numbered(WithAsOf(WithDomains(c, f), f))
  {
    hide Numbers, Range, Numbered, AndAlso, ListTest, LookupToks, Texts;
    ListNumbers("domain", false, Next(c));
    if f.domains != [] {
      NumberedOne(c, ListTest("domain", false, Next(c)), Texts(f.domains));
    }
    var d := WithDomains(c, f);
    if f.asOfEpoch.Some? {
      LookupNumbers(AsOfEpoch, Next(d));
      NumberedOne(d, LookupToks(AsOfEpoch, Next(d)), IntArg(f.asOfEpoch.value));
    } else if f.asOfTime.Some? {
      LookupNumbers(AsOfTime, Next(d));
      NumberedOne(d, LookupToks(AsOfTime, Next(d)), TimeArg(f.asOfTime.value));
    }
  }

  /** Whatever the filter, the clause uses exactly the placeholders 1, 2, ..., each once and
      from left to right, one for each argument. */
  lemma ClauseNumbered(q: string, f: Filter)
    requires Clause(q, f).Ok?
    ensures Numbered(Clause(q, f).value)
  {
    PlainNumbered(q, f);
    if f.hql.Some? {
      var c := PlainClause(q, f);
      var e, n := f.hql.value.where, Next(c);
      hide PlainClause, Compile, Numbers, Range, CompileOrder;
      var h := Compile(e, f.ctx, n).value;
      PlaceholdersInOrder(e, f.ctx, n);
      NumbersWrapped([Open], h.toks, [Close]);
      NumberedAnd(c, [Open] + h.toks + [Close], h.args);
    }
  }

  // ---- the conjuncts

  lemma ListLeaf(col: string, negated: bool, n: int)
    ensures Leaf(ListTest(col, negated, n), if negated then SAll(col, NeOp, n) else SAny(col, EqOp, n))
  {
    forall rest: seq<Tok>
      ensures ReadNot(ListTest(col, negated, n) + rest) == Some(Read(if negated then SAll(col, NeOp, n) else SAny(col, EqOp, n), rest))
    {
      ListReads(col, negated, n, rest);
    }
  }

  lemma TagLeaf(n: int)
    ensures Leaf(TagTest(n), SContains(TAGS, n))
  {
    forall rest: seq<Tok> ensures ReadNot(TagTest(n) + rest) == Some(Read(SContains(TAGS, n), rest)) {
      TagTestReads(n, rest);
    }
  }

  lemma LookupReads(k: Lookup, n: int, rest: seq<Tok>)
    ensures ReadNot(LookupToks(k, n) + rest) == Some(Read(SLookup(k, n), rest))
  {
    var ts := LookupToks(k, n) + rest;
    assert ts[1..][0] == Open && ts[1..][1] == Placeholder(n) && ts[1..][2] == Close && ts[4..] == rest;
  }

  lemma LookupLeaf(k: Lookup, n: int)
    ensures Leaf(LookupToks(k, n), SLookup(k, n))
  {
    forall rest: seq<Tok> ensures ReadNot(LookupToks(k, n) + rest) == Some(Read(SLookup(k, n), rest)) {
      LookupReads(k, n, rest);
    }
  }

  lemma NewArg(a: seq<Arg>, v: Arg, more: seq<Arg>)
    ensures ArgAt(a + [v] + more, |a| + 1) == v
  {
  }

  /** A text column is one of the given texts. */
  ghost function OneOf(cell: Cell, ts: seq<string>): Truth {
    if !cell.TextCell? then Unknown else Of(cell.text in ts)
  }

  lemma TextsHold(s: Server, ts: seq<string>, text: string)
    ensures (exists i :: 0 <= i < |Texts(ts).items| && s.TextOf(Texts(ts).items[i]) == text) <==> text in ts
  {
    if text in ts {
      var i :| 0 <= i < |ts| && ts[i] == text;
      assert s.TextOf(Texts(ts).items[i]) == text;
    }
  }

  lemma ListEvaluates(s: Server, row: Row, col: string, negated: bool, a: seq<Arg>, ts: seq<string>)
    requires ts != [] && (row(col).Null? || row(col).TextCell?)
    ensures Evaluates(s, row, if negated then SAll(col, NeOp, |a| + 1) else SAny(col, EqOp, |a| + 1), a + [Texts(ts)],
      if negated then Neg(OneOf(row(col), ts)) else OneOf(row(col), ts))
  {
    var items := Texts(ts).items;
    AnyOfText(s, row(col), items);
    AllOfText(s, row(col), items);
    if row(col).TextCell? {
      TextsHold(s, ts, row(col).text);
    }
    hide AnyOf, AllOf, Texts;
    var x := if negated then SAll(col, NeOp, |a| + 1) else SAny(col, EqOp, |a| + 1);
    forall more: seq<Arg>
      ensures Eval(s, row, x, a + [Texts(ts)] + more) == if negated then Neg(OneOf(row(col), ts)) else OneOf(row(col), ts)
    {
      NewArg(a, Texts(ts), more);
    }
  }

  ghost function HasTag(cell: Cell, tag: string): Truth {
    if !cell.ArrayCell? then Unknown else Of(tag in cell.items)
  }

  lemma TagEvaluates(s: Server, row: Row, a: seq<Arg>, tag: string)
    ensures Evaluates(s, row, SContains(TAGS, |a| + 1), a + [TextArg(tag)], HasTag(row(TAGS), tag))
  {
    forall more: seq<Arg>
      ensures Eval(s, row, SContains(TAGS, |a| + 1), a + [TextArg(tag)] + more) == HasTag(row(TAGS), tag)
    {
      NewArg(a, TextArg(tag), more);
    }
  }

  lemma LookupEvaluates(s: Server, row: Row, k: Lookup, a: seq<Arg>, v: Arg)
    ensures Evaluates(s, row, SLookup(k, |a| + 1), a + [v], s.lookup(k, row, v))
  {
    forall more: seq<Arg>
      ensures Eval(s, row, SLookup(k, |a| + 1), a + [v] + more) == s.lookup(k, row, v)
    {
      NewArg(a, v, more);
    }
  }

  // ---- the conjunction of the parts

  function All(first: Truth, parts: seq<Truth>): Truth
    decreases |parts|
  {
    if parts == [] then first else Conj(All(first, parts[..|parts| - 1]), parts[|parts| - 1])
  }

  lemma AllAppend(first: Truth, parts: seq<Truth>, p: Truth)
    ensures All(first, parts + [p]) == Conj(All(first, parts), p)
  {
    assert (parts + [p])[..|parts|] == parts;
  }

  /** A row is selected exactly when every part is true of it. */
  lemma {:induction false} AllTrue(first: Truth, parts: seq<Truth>)
    ensures All(first, parts) == True <==> first == True && forall i :: 0 <= i < |parts| ==> parts[i] == True
    decreases |parts|
  {
    if parts != [] {
      var init := parts[..|parts| - 1];
      AllTrue(first, init);
      assert forall i :: 0 <= i < |init| ==> init[i] == parts[i];
    }
  }

  ghost function TypePart(f: Filter, row: Row): seq<Truth> {
    if CombinedTypes(f) == [] then [] else [OneOf(row("type"), CombinedTypes(f))]
  }

  ghost function TagPart(f: Filter, row: Row): seq<Truth> {
    if f.tag == "" then [] else [HasTag(row(TAGS), f.tag)]
  }

  ghost function ExcludePart(f: Filter, row: Row): seq<Truth> {
    if f.excludeIds == [] then [] else [Neg(OneOf(row("id"), f.excludeIds))]
  }

  ghost function DomainPart(f: Filter, row: Row): seq<Truth> {
    if f.domains == [] then [] else [OneOf(row("domain"), f.domains)]
  }

  ghost function AsOfPart(f: Filter, s: Server, row: Row): seq<Truth> {
    if f.asOfEpoch.Some? then [s.lookup(AsOfEpoch, row, IntArg(f.asOfEpoch.value))]
    else if f.asOfTime.Some? then [s.lookup(AsOfTime, row, TimeArg(f.asOfTime.value))]
    else []
  }

  ghost function HqlPart(f: Filter, s: Server, row: Row): seq<Truth>
    requires f.hql.Some? ==> Compile(f.hql.value.where, f.ctx, 0).Ok?
  {
    if f.hql.None? then [] else [Meaning(f.hql.value.where, f.ctx, s, row)]
  }

  ghost function PlainParts(f: Filter, s: Server, row: Row): seq<Truth> {
    TypePart(f, row) + TagPart(f, row) + ExcludePart(f, row) + DomainPart(f, row) + AsOfPart(f, s, row)
  }

  ghost predicate RowTyped(row: Row) {
    && RowOk(row)
    && (row("type").Null? || row("type").TextCell?) && (row("id").Null? || row("id").TextCell?)
    && (row("domain").Null? || row("domain").TextCell?)
  }

  lemma StartGood(q: string, s: Server, row: Row)
    ensures Good(Compiled(LookupToks(FtsMatch, 1), [TextArg(q)]), SLookup(FtsMatch, 1), s, row, s.lookup(FtsMatch, row, TextArg(q)))
  {
    LookupLeaf(FtsMatch, 1);
    LookupEvaluates(s, row, FtsMatch, [], TextArg(q));
    assert [] + [TextArg(q)] == [TextArg(q)];
    forall rest: seq<Tok> ensures ReadAnd(LookupToks(FtsMatch, 1) + rest) == ReadAndTail(SLookup(FtsMatch, 1), rest) {
      assert ReadNot(LookupToks(FtsMatch, 1) + rest) == Some(Read(SLookup(FtsMatch, 1), rest));
      AndContinues(LookupToks(FtsMatch, 1) + rest, SLookup(FtsMatch, 1), rest);
    }
  }

  lemma AndContinues(ts: seq<Tok>, l: Sql, rest: seq<Tok>)
    requires ReadNot(ts) == Some(Read(l, rest))
    ensures ReadAnd(ts) == ReadAndTail(l, rest)
  {
    hide ReadNot;
  }

  lemma ListStep(c: Compiled, tree: Sql, s: Server, row: Row, first: Truth, parts: seq<Truth>,
                 col: string, negated: bool, ts: seq<string>) returns (tree': Sql)
    requires Good(c, tree, s, row, All(first, parts)) && ts != [] && (row(col).Null? || row(col).TextCell?)
    ensures Good(AndAlso(c, ListTest(col, negated, Next(c)), [Texts(ts)]), tree', s, row,
      All(first, parts + [if negated then Neg(OneOf(row(col), ts)) else OneOf(row(col), ts)]))
  {
    var n := Next(c);
    var x := if negated then SAll(col, NeOp, n) else SAny(col, EqOp, n);
    var u := if negated then Neg(OneOf(row(col), ts)) else OneOf(row(col), ts);
    ListLeaf(col, negated, n);
    ListEvaluates(s, row, col, negated, c.args, ts);
    AllAppend(first, parts, u);
    hide Good, Leaf, Evaluates, ListTest, All, OneOf;
    GoodAnd(c, tree, s, row, All(first, parts), ListTest(col, negated, n), [Texts(ts)], x, u);
    tree' := SAnd(tree, x);
  }

  lemma TagStep(c: Compiled, tree: Sql, s: Server, row: Row, first: Truth, parts: seq<Truth>, tag: string) returns (tree': Sql)
    requires Good(c, tree, s, row, All(first, parts))
    ensures Good(AndAlso(c, TagTest(Next(c)), [TextArg(tag)]), tree', s, row, All(first, parts + [HasTag(row(TAGS), tag)]))
  {
    var n := Next(c);
    TagLeaf(n);
    TagEvaluates(s, row, c.args, tag);
    AllAppend(first, parts, HasTag(row(TAGS), tag));
    hide Good, Leaf, Evaluates, TagTest, All, HasTag;
    GoodAnd(c, tree, s, row, All(first, parts), TagTest(n), [TextArg(tag)], SContains(TAGS, n), HasTag(row(TAGS), tag));
    tree' := SAnd(tree, SContains(TAGS, n));
  }

  lemma LookupStep(c: Compiled, tree: Sql, s: Server, row: Row, first: Truth, parts: seq<Truth>, k: Lookup, v: Arg)
    returns (tree': Sql)
    requires Good(c, tree, s, row, All(first, parts))
    ensures Good(AndAlso(c, LookupToks(k, Next(c)), [v]), tree', s, row, All(first, parts + [s.lookup(k, row, v)]))
  {
    var n := Next(c);
    LookupLeaf(k, n);
    LookupEvaluates(s, row, k, c.args, v);
    AllAppend(first, parts, s.lookup(k, row, v));
    hide Good, Leaf, Evaluates, LookupToks, All;
    GoodAnd(c, tree, s, row, All(first, parts), LookupToks(k, n), [v], SLookup(k, n), s.lookup(k, row, v));
    tree' := SAnd(tree, SLookup(k, n));
  }

  lemma HqlReads(e: Expr, ctx: EvalContext, n: int, rest: seq<Tok>)
    requires Compile(e, ctx, n).Ok? && NoEmptyTagList(e)
    ensures ReadNot([Open] + Compile(e, ctx, n).value.toks + [Close] + rest) == Some(Read(SqlOf(e, ctx, n), rest))
  {
    hide ReadNot, ReadOr, SqlOf, Compile, NoEmptyTagList;
    var ts := Compile(e, ctx, n).value.toks;
    CompiledReads(e, ctx, n, [Close] + rest);
    ClosedReads(ts + ([Close] + rest), SqlOf(e, ctx, n), rest);
    assert [Open] + ts + [Close] + rest == [Open] + (ts + ([Close] + rest));
  }

  lemma HqlLeaf(e: Expr, ctx: EvalContext, n: int)
    requires Compile(e, ctx, n).Ok? && NoEmptyTagList(e)
    ensures Leaf([Open] + Compile(e, ctx, n).value.toks + [Close], SqlOf(e, ctx, n))
  {
    hide ReadNot, ReadOr, SqlOf, Compile, NoEmptyTagList;
    var us := [Open] + Compile(e, ctx, n).value.toks + [Close];
    forall rest: seq<Tok> ensures ReadNot(us + rest) == Some(Read(SqlOf(e, ctx, n), rest)) {
      HqlReads(e, ctx, n, rest);
    }
  }

  lemma HqlEvaluates(e: Expr, ctx: EvalContext, a: seq<Arg>, s: Server, row: Row)
    requires Compile(e, ctx, |a| + 1).Ok? && Compile(e, ctx, 0).Ok? && NoEmptyTagList(e) && RowOk(row) && KeepsMeta(s.fold)
    ensures Evaluates(s, row, SqlOf(e, ctx, |a| + 1), a + Compile(e, ctx, |a| + 1).value.args, Meaning(e, ctx, s, row))
  {
    var vals, x := Compile(e, ctx, |a| + 1).value.args, SqlOf(e, ctx, |a| + 1);
    hide Compile, SqlOf, Meaning, Eval, RowOk, KeepsMeta, NoEmptyTagList;
    forall more: seq<Arg> ensures Eval(s, row, x, a + vals + more) == Meaning(e, ctx, s, row) {
      assert Bound(a + vals + more, |a| + 1, vals);
      EvalOf(e, ctx, |a| + 1, s, row, a + vals + more);
    }
  }

  lemma HqlStep(c: Compiled, tree: Sql, s: Server, row: Row, first: Truth, parts: seq<Truth>, e: Expr, ctx: EvalContext)
    returns (tree': Sql)
    requires Good(c, tree, s, row, All(first, parts))
    requires Compile(e, ctx, Next(c)).Ok? && Compile(e, ctx, 0).Ok? && NoEmptyTagList(e) && RowOk(row) && KeepsMeta(s.fold)
    ensures var h := Compile(e, ctx, Next(c)).value;
      Good(AndAlso(c, [Open] + h.toks + [Close], h.args), tree', s, row, All(first, parts + [Meaning(e, ctx, s, row)]))
  {
    var n := Next(c);
    var h := Compile(e, ctx, n).value;
    var x := SqlOf(e, ctx, n);
    var us := [Open] + h.toks + [Close];
    HqlLeaf(e, ctx, n);
    HqlEvaluates(e, ctx, c.args, s, row);
    AllAppend(first, parts, Meaning(e, ctx, s, row));
    hide Good, Leaf, Evaluates, All, Meaning, Compile, SqlOf, RowOk, KeepsMeta, NoEmptyTagList;
    GoodAnd(c, tree, s, row, All(first, parts), us, h.args, x, Meaning(e, ctx, s, row));
    tree' := SAnd(tree, x);
  }

  lemma PlainGood(q: string, f: Filter, s: Server, row: Row) returns (tree: Sql)
    requires RowTyped(row)
    ensures Good(PlainClause(q, f), tree, s, row, All(s.lookup(FtsMatch, row, TextArg(q)), PlainParts(f, s, row)))
  {
    var first := s.lookup(FtsMatch, row, TextArg(q));
    var c0 := Compiled(LookupToks(FtsMatch, 1), [TextArg(q)]);
    StartGood(q, s, row);
    tree := SLookup(FtsMatch, 1);
    assert All(first, []) == first;
    hide Good, All, RowOk, LookupToks, ListTest, TagTest, Texts, OneOf, HasTag, AndAlso;
    var p1 := TypePart(f, row);
    if CombinedTypes(f) != [] {
      tree := ListStep(c0, tree, s, row, first, [], "type", false, CombinedTypes(f));
      assert [] + p1 == p1;
    }
    var c1 := WithTypes(c0, f);
    assert Good(c1, tree, s, row, All(first, p1));
    var p2 := p1 + TagPart(f, row);
    if f.tag != "" {
      tree := TagStep(c1, tree, s, row, first, p1, f.tag);
    } else {
      assert p2 == p1;
    }
    var c2 := WithTag(c1, f);
    assert Good(c2, tree, s, row, All(first, p2));
    var p3 := p2 + ExcludePart(f, row);
    if f.excludeIds != [] {
      tree := ListStep(c2, tree, s, row, first, p2, "id", true, f.excludeIds);
    } else {
      assert p3 == p2;
    }
    var c3 := WithExclude(c2, f);
    assert Good(c3, tree, s, row, All(first, p3));
    tree := LastPlainSteps(c3, tree, f, s, row, first, p3);
  }

  lemma LastPlainSteps(c: Compiled, tree: Sql, f: Filter, s: Server, row: Row, first: Truth, parts: seq<Truth>) returns (tree': Sql)
    requires RowTyped(row) && Good(c, tree, s, row, All(first, parts))
    ensures Good(WithAsOf(WithDomains(c, f), f), tree', s, row, All(first, parts + DomainPart(f, row) + AsOfPart(f, s, row)))
  {
    hide Good, All, RowOk, LookupToks, ListTest, Texts, OneOf, AndAlso;
    tree' := tree;
    var p := parts + DomainPart(f, row);
    if f.domains != [] {
      tree' := ListStep(c, tree', s, row, first, parts, "domain", false, f.domains);
    } else {
      assert p == parts;
    }
    var c' := WithDomains(c, f);
    assert Good(c', tree', s, row, All(first, p));
    if f.asOfEpoch.Some? {
      tree' := LookupStep(c', tree', s, row, first, p, AsOfEpoch, IntArg(f.asOfEpoch.value));
    } else if f.asOfTime.Some? {
      tree' := LookupStep(c', tree', s, row, first, p, AsOfTime, TimeArg(f.asOfTime.value));
    } else {
      assert p + AsOfPart(f, s, row) == p;
    }
  }

  /** For every filter the clause means the conjunction of its parts. */
  lemma ClauseIsConjunction(q: string, f: Filter, s: Server, row: Row)
    requires Clause(q, f).Ok? && RowTyped(row) && KeepsMeta(s.fold)
    requires f.hql.Some? ==> NoEmptyTagList(f.hql.value.where)
    ensures f.hql.Some? ==> Compile(f.hql.value.where, f.ctx, 0).Ok?
    ensures
      var c := Clause(q, f).value;
      && ReadSql(c.toks).Some?
      && Eval(s, row, ReadSql(c.toks).value, c.args) ==
           All(s.lookup(FtsMatch, row, TextArg(q)), PlainParts(f, s, row) + HqlPart(f, s, row))
  {
    var first := s.lookup(FtsMatch, row, TextArg(q));
    var parts := PlainParts(f, s, row);
    var c := Clause(q, f).value;
    var plain := PlainClause(q, f);
    var tree := PlainGood(q, f, s, row);
    if f.hql.Some? {
      CompileAnywhere(f.hql.value.where, f.ctx, Next(plain));
      hide Good, All, PlainClause, PlainParts, Compile, Meaning, RowOk, KeepsMeta, NoEmptyTagList;
      tree := HqlStep(plain, tree, s, row, first, parts, f.hql.value.where, f.ctx);
    } else {
      assert parts + HqlPart(f, s, row) == parts;
    }
    hide All, PlainClause, PlainParts, Compile, Meaning, Clause;
    GoodReads(c, tree, s, row, All(first, parts + HqlPart(f, s, row)));
  }

  lemma GoodReads(c: Compiled, tree: Sql, s: Server, row: Row, t: Truth)
    requires Good(c, tree, s, row, t)
    ensures ReadSql(c.toks) == Some(tree) && Eval(s, row, tree, c.args) == t
  {
    assert c.toks + [] == c.toks && c.args + [] == c.args;
    assert ReadAnd(c.toks + []) == ReadAndTail(tree, []);
    assert ReadAndTail(tree, []) == Some(Read(tree, []));
    assert Eval(s, row, tree, c.args + []) == t;
    hide ReadAnd, Eval;
    ClosesOr(c.toks, tree, []);
  }

  // ---- row by row

  ghost predicate EachTrue(parts: seq<Truth>) {
    forall i :: 0 <= i < |parts| ==> parts[i] == True
  }

  lemma AllConcat(first: Truth, a: seq<Truth>, b: seq<Truth>)
    ensures All(first, a + b) == True <==> All(first, a) == True && EachTrue(b)
  {
    AllTrue(first, a + b);
    AllTrue(first, a);
    hide All;
    assert forall i :: 0 <= i < |a| ==> (a + b)[i] == a[i];
    assert forall i :: 0 <= i < |b| ==> (a + b)[|a| + i] == b[i];
  }

  lemma OneTrue(x: Truth)
    ensures EachTrue([x]) <==> x == True
  {
    assert [x][0] == x;
  }

  /** The type is the one asked for, or one of those to include. */
  predicate TypeAsked(t: string, f: Filter) {
    (f.typ != "" && t == f.typ) || t in f.includeTypes
  }

  lemma PartsHold(f: Filter, s: Server, row: Row)
    ensures EachTrue(TypePart(f, row)) <==> (f.typ == "" && f.includeTypes == []) || (row("type").TextCell? && TypeAsked(row("type").text, f))
    ensures EachTrue(TagPart(f, row)) <==> f.tag == "" || (row("tags").ArrayCell? && f.tag in row("tags").items)
    ensures EachTrue(ExcludePart(f, row)) <==> f.excludeIds == [] || (row("id").TextCell? && row("id").text !in f.excludeIds)
    ensures EachTrue(DomainPart(f, row)) <==> f.domains == [] || (row("domain").TextCell? && row("domain").text in f.domains)
    ensures EachTrue(AsOfPart(f, s, row)) <==>
      && (f.asOfEpoch.Some? ==> s.lookup(AsOfEpoch, row, IntArg(f.asOfEpoch.value)) == True)
      && (f.asOfEpoch.None? && f.asOfTime.Some? ==> s.lookup(AsOfTime, row, TimeArg(f.asOfTime.value)) == True)
  {
    assert CombinedTypes(f) == [] <==> f.typ == "" && f.includeTypes == [];
    OneTrue(OneOf(row("type"), CombinedTypes(f)));
    OneTrue(HasTag(row(TAGS), f.tag));
    OneTrue(Neg(OneOf(row("id"), f.excludeIds)));
    OneTrue(OneOf(row("domain"), f.domains));
    if f.asOfEpoch.Some? {
      OneTrue(s.lookup(AsOfEpoch, row, IntArg(f.asOfEpoch.value)));
    } else if f.asOfTime.Some? {
      OneTrue(s.lookup(AsOfTime, row, TimeArg(f.asOfTime.value)));
    }
    hide EachTrue;
  }

  /** Row by row: the text matches, and the type, a tag, the id, the domain, the as-of bound
      and the query are as the filter asks, each where it asks for one. */
  lemma ClauseSelects(q: string, f: Filter, s: Server, row: Row)
    requires Clause(q, f).Ok? && RowTyped(row) && KeepsMeta(s.fold)
    requires f.hql.Some? ==> NoEmptyTagList(f.hql.value.where)
    ensures ReadSql(Clause(q, f).value.toks).Some?
    ensures
      var c := Clause(q, f).value;
      Eval(s, row, ReadSql(c.toks).value, c.args) == True <==>
        && s.lookup(FtsMatch, row, TextArg(q)) == True
        && ((f.typ == "" && f.includeTypes == []) || (row("type").TextCell? && TypeAsked(row("type").text, f)))
        && (f.tag == "" || (row("tags").ArrayCell? && f.tag in row("tags").items))
        && (f.excludeIds == [] || (row("id").TextCell? && row("id").text !in f.excludeIds))
        && (f.domains == [] || (row("domain").TextCell? && row("domain").text in f.domains))
        && (f.asOfEpoch.Some? ==> s.lookup(AsOfEpoch, row, IntArg(f.asOfEpoch.value)) == True)
        && (f.asOfEpoch.None? && f.asOfTime.Some? ==> s.lookup(AsOfTime, row, TimeArg(f.asOfTime.value)) == True)
        && (f.hql.Some? ==> Meaning(f.hql.value.where, f.ctx, s, row) == True)
  {
    hide All, Clause, Eval, ReadSql, Meaning, Compile, RowTyped, KeepsMeta, NoEmptyTagList, OneOf, HasTag, EachTrue, TypePart,
      TagPart, ExcludePart, DomainPart, AsOfPart, TypeAsked;
    ClauseIsConjunction(q, f, s, row);
    PartsHold(f, s, row);
    var first := s.lookup(FtsMatch, row, TextArg(q));
    var a, b, c, d, e := TypePart(f, row), TagPart(f, row), ExcludePart(f, row), DomainPart(f, row), AsOfPart(f, s, row);
    AllConcat(first, a + b + c + d + e, HqlPart(f, s, row));
    AllConcat(first, a + b + c + d, e);
    AllConcat(first, a + b + c, d);
    AllConcat(first, a + b, c);
    AllConcat(first, a, b);
    AllConcat(first, [], a);
    assert [] + a == a;
    NoParts(first);
    if f.hql.Some? {
      OneTrue(Meaning(f.hql.value.where, f.ctx, s, row));
    } else {
      NoneTrue();
    }
  }

  lemma NoParts(first: Truth)
    ensures All(first, []) == first
  {
  }

  lemma NoneTrue()
    ensures EachTrue([])
  {
  }
}
