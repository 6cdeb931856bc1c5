/** The compiler from queries to SQL text and arguments (internal/hql/sql.go).
    SQL text is the sequence of its tokens. */
module HqlSql {
  import opened Wrappers
  import opened HqlAst
  import opened HqlSchema
  import opened Like

  datatype Comparator = EqOp | NeOp | GtOp | GeOp | LtOp | LeOp

  /** Conditions of one argument that this model does not look into: the full-text
      match and the two as-of subqueries. Their own parentheses close them. */
  datatype Lookup = FtsMatch | AsOfEpoch | AsOfTime

  datatype Tok =
    | Open
    | Close
    | AndKw
    | OrKw
    | NotKw
    | IsKw
    | NullKw
    | ILikeKw
    | LikeKw
    | EscapeKw
    | AnyKw
    | AllKw
    | ExistsKw
    | SelectKw
    | FromKw
    | WhereKw
    | UnnestKw
    | CardinalityKw
    | ArrayKw
    | OpenBracket
    | CloseBracket
    | TextArrayCast
    | ContainsOp
    | Compare(op: Comparator)
    | Column(name: string)
    | Number(n: int)
    | Literal(text: string)
    | Placeholder(index: int)
    | LookupTest(lookup: Lookup)

  datatype Compiled = Compiled(toks: seq<Tok>, args: seq<Arg>)

  function ComparatorOf(op: string): Comparator {
    if op == OP_EQ then EqOp else if op == OP_NE then NeOp else if op == OP_GT then GtOp
    else if op == OP_GE then GeOp else if op == OP_LT then LtOp else LeOp
  }

  function ResolveAll(list: seq<Value>, ctx: EvalContext): (r: Result<seq<Arg>, SqlError>)
    ensures r.Ok? ==> |r.value| == |list|
  {
    if list == [] then Ok([])
    else
      match ResolveScalar(list[0], ctx)
      case Err(e) => Err(e)
      case Ok(a) =>
        Collected([a], ResolveAll(list[1..], ctx))
  }

  function Collected(done: seq<Arg>, r: Result<seq<Arg>, SqlError>): (c: Result<seq<Arg>, SqlError>)
    ensures r.Ok? ==> c.Ok? && |c.value| == |done| + |r.value|
    ensures r.Err? ==> c == r
  {
    match r
    case Err(e) => Err(e)
    case Ok(rest) => Ok(done + rest)
  }

  lemma CollectedTwice(a: seq<Arg>, b: seq<Arg>, r: Result<seq<Arg>, SqlError>)
    ensures Collected(a, Collected(b, r)) == Collected(a + b, r)
  {
    assert r.Ok? ==> a + (b + r.value) == a + b + r.value;
  }

  lemma CollectedNothing(a: seq<Arg>, r: Result<seq<Arg>, SqlError>)
    ensures Collected([], r) == r
    ensures Collected(a, Ok([])) == Ok(a)
  {
    assert r.Ok? ==> [] + r.value == r.value;
    assert a + [] == a;
  }

  function EmptyTest(col: string): seq<Tok> {
    [Open, Column(col), IsKw, NullKw, OrKw, Column(col), Compare(EqOp), Literal(""), Close]
  }

  function ContainsTest(col: string, negated: bool, n: int): seq<Tok> {
    [Column(col)] + (if negated then [NotKw] else []) + [ILikeKw, Placeholder(n), EscapeKw, Literal("\\")]
  }

  function CompareTest(col: string, op: Comparator, n: int): seq<Tok> {
    [Column(col), Compare(op), Placeholder(n)]
  }

  function ListTest(col: string, negated: bool, n: int): seq<Tok> {
    if negated then [Column(col), Compare(NeOp), AllKw, Open, Placeholder(n), Close]
    else [Column(col), Compare(EqOp), AnyKw, Open, Placeholder(n), Close]
  }

  /** `next` is the number of the next placeholder. */
  function TextCmp(c: Expr, f: Field, ctx: EvalContext, next: int): Result<Compiled, SqlError>
    requires c.Comparison?
  {
    if c.op == OP_CONTAINS || c.op == OP_NOT_CONTAINS then
      if c.value.None? then Err(NeedsValue)
      else
        Ok(Compiled(ContainsTest(f.column, c.op == OP_NOT_CONTAINS, next),
          [TextArg("%" + EscapeLike(c.value.value.raw) + "%")]))
    else if c.op == OP_EQ || c.op == OP_NE then
      if c.value.None? then Err(NeedsValue)
      else
        match ResolveScalar(c.value.value, ctx)
        case Err(e) => Err(e)
        case Ok(v) => Ok(Compiled(CompareTest(f.column, ComparatorOf(c.op), next), [v]))
    else if c.op == OP_IN || c.op == OP_NOT_IN then
      match ResolveAll(c.list, ctx)
      case Err(e) => Err(e)
      case Ok(vals) => Ok(Compiled(ListTest(f.column, c.op == OP_NOT_IN, next), [ListArg(vals)]))
    else if c.op == OP_NOT_EMPTY then Ok(Compiled([NotKw] + EmptyTest(f.column), []))
    else Ok(Compiled(EmptyTest(f.column), []))
  }

  function ScalarCmp(c: Expr, f: Field, ctx: EvalContext, next: int): Result<Compiled, SqlError>
    requires c.Comparison?
  {
    if c.value.None? then Err(NeedsValue)
    else
      match if f.kind == KDate then ResolveDate(c.value.value.raw, ctx) else ResolveScalar(c.value.value, ctx)
      case Err(e) => Err(e)
      case Ok(v) => Ok(Compiled(CompareTest(f.column, ComparatorOf(c.op), next), [v]))
  }

  function TagTest(n: int): seq<Tok> {
    [Column(TAGS), ContainsOp, ArrayKw, OpenBracket, Placeholder(n), CloseBracket, TextArrayCast]
  }

  function TagValues(list: seq<Value>, prefix: string, ctx: EvalContext): (r: Result<seq<Arg>, SqlError>)
    ensures r.Ok? ==> |r.value| == |list|
  {
    if list == [] then Ok([])
    else
      match TagValue(list[0], prefix, ctx)
      case Err(e) => Err(e)
      case Ok(v) =>
        Collected([v], TagValues(list[1..], prefix, ctx))
  }

  /** `count` tag tests joined by OR. */
  function TagTests(n: int, count: nat): seq<Tok>
    decreases count
  {
    if count == 0 then []
    else if count == 1 then TagTest(n)
    else TagTest(n) + [OrKw] + TagTests(n + 1, count - 1)
  }

  lemma {:induction false} TagTestsAppend(n: int, count: nat)
    ensures TagTests(n, count + 1) == TagTests(n, count) + (if count == 0 then [] else [OrKw]) + TagTest(n + count)
    decreases count
  {
    hide TagTest;
    if count > 0 {
      TagTestsAppend(n + 1, count - 1);
      var last := TagTest(n + count);
      if count == 1 {
        assert TagTests(n + 1, 1) == last;
      } else {
        assert TagTest(n) + [OrKw] + (TagTests(n + 1, count - 1) + [OrKw] + last) ==
          TagTest(n) + [OrKw] + TagTests(n + 1, count - 1) + [OrKw] + last;
      }
    }
  }

  function NoTagWithPrefix(n: int): seq<Tok> {
    [NotKw, ExistsKw, Open, SelectKw, Number(1), FromKw, UnnestKw, Open, Column(TAGS), Close, Column("t"),
     WhereKw, Column("t"), LikeKw, Placeholder(n), Close]
  }

  const NO_TAGS: seq<Tok> :=
    [Open, Column(TAGS), IsKw, NullKw, OrKw, CardinalityKw, Open, Column(TAGS), Close, Compare(EqOp), Number(0), Close]

  function TagEmpty(f: Field, next: int): Compiled {
    if f.prefix == "" then Compiled(NO_TAGS, []) else Compiled(NoTagWithPrefix(next), [TextArg(f.prefix + "%")])
  }

  function Negated(toks: seq<Tok>): seq<Tok> {
    [NotKw, Open] + toks + [Close]
  }

  function TagCmp(c: Expr, f: Field, ctx: EvalContext, next: int): Result<Compiled, SqlError>
    requires c.Comparison?
  {
    if c.op == OP_EQ || c.op == OP_NE then
      if c.value.None? then Err(NeedsValue)
      else
        match TagValue(c.value.value, f.prefix, ctx)
        case Err(e) => Err(e)
        case Ok(v) => Ok(Compiled(if c.op == OP_NE then Negated(TagTest(next)) else TagTest(next), [v]))
    else if c.op == OP_IN || c.op == OP_NOT_IN then
      match TagValues(c.list, f.prefix, ctx)
      case Err(e) => Err(e)
      case Ok(vals) =>
        var joined := [Open] + TagTests(next, |vals|) + [Close];
        Ok(Compiled(if c.op == OP_NOT_IN then [NotKw] + joined else joined, vals))
    else
      var test := TagEmpty(f, next);
      Ok(if c.op == OP_NOT_EMPTY then Compiled(Negated(test.toks), test.args) else test)
  }

  function CompileComparison(c: Expr, ctx: EvalContext, next: int): Result<Compiled, SqlError>
    requires c.Comparison?
  {
    match LookupField(c.field)
    case None => Err(UnknownField)
    case Some(f) =>
      if !OpAllowed(f, c.field, c.op) then Err(OperatorNotAllowed)
      else
        match f.kind
        case KText => TextCmp(c, f, ctx, next)
        case KID => TextCmp(c, f, ctx, next)
        case KInt => ScalarCmp(c, f, ctx, next)
        case KDate => ScalarCmp(c, f, ctx, next)
        case KTagPrefix => TagCmp(c, f, ctx, next)
  }

  function Joined(l: Compiled, connective: Tok, r: Result<Compiled, SqlError>): Result<Compiled, SqlError> {
    match r
    case Err(e) => Err(e)
    case Ok(cr) => Ok(Compiled([Open] + l.toks + [connective] + cr.toks + [Close], l.args + cr.args))
  }

  function Compile(e: Expr, ctx: EvalContext, next: int): Result<Compiled, SqlError> {
    match e
    case And(l, r) =>
      (match Compile(l, ctx, next)
       case Err(err) => Err(err)
       case Ok(cl) => Joined(cl, AndKw, Compile(r, ctx, next + |cl.args|)))
    case Or(l, r) =>
      (match Compile(l, ctx, next)
       case Err(err) => Err(err)
       case Ok(cl) => Joined(cl, OrKw, Compile(r, ctx, next + |cl.args|)))
    case Not(x) =>
      (match Compile(x, ctx, next)
       case Err(err) => Err(err)
       case Ok(cx) => Ok(Compiled([Open, NotKw] + cx.toks + [Close], cx.args)))
    case Comparison(_, _, _, _) => CompileComparison(e, ctx, next)
  }

  datatype OrderTerm = OrderTerm(column: string, desc: bool)

  function CompileOrder(fs: seq<OrderField>): Result<seq<OrderTerm>, SqlError> {
    if fs == [] then Ok([])
    else
      match LookupField(fs[0].field)
      case None => Err(UnknownOrderField)
      case Some(f) =>
        if f.kind == KTagPrefix then Err(OrderByTag)
        else OrderedAfter([OrderTerm(f.column, fs[0].desc)], CompileOrder(fs[1..]))
  }

  function OrderedAfter(done: seq<OrderTerm>, r: Result<seq<OrderTerm>, SqlError>): Result<seq<OrderTerm>, SqlError> {
    match r
    case Err(e) => Err(e)
    case Ok(rest) => Ok(done + rest)
  }

  datatype SqlQuery = SqlQuery(where: seq<Tok>, args: seq<Arg>, order: seq<OrderTerm>)

  /** ToSQLAt: the placeholders start after `startArg`. */
  function ToSql(q: Query, ctx: EvalContext, startArg: int): Result<SqlQuery, SqlError> {
    match Compile(q.where, ctx, startArg + 1)
    case Err(e) => Err(e)
    case Ok(c) =>
      match CompileOrder(q.orderBy)
      case Err(e) => Err(e)
      case Ok(order) => Ok(SqlQuery(c.toks, c.args, order))
  }

  // ---- the code

  /** `r` and the arguments appended are what `spec` says. */
  ghost predicate Emits(r: Result<seq<Tok>, SqlError>, before: seq<Arg>, after: seq<Arg>, spec: Result<Compiled, SqlError>) {
    match spec
    case Err(e) => r == Err(e)
    case Ok(c) => r == Ok(c.toks) && after == before + c.args
  }

  class SqlBuilder {
    const ctx: EvalContext
    const base: int
    var args: seq<Arg>

    constructor (ctx: EvalContext, base: int)
      ensures this.ctx == ctx && this.base == base && args == []
    {
      this.ctx := ctx;
      this.base := base;
      args := [];
    }

    ghost function Next(): int
      reads this
    {
      base + |args| + 1
    }

    method Ph(v: Arg) returns (tok: Tok)
      modifies this`args
      ensures tok == Placeholder(old(Next())) && args == old(args) + [v]
    {
      args := args + [v];
      tok := Placeholder(base + |args|);
    }

    method Expr(e: Expr) returns (r: Result<seq<Tok>, SqlError>)
      modifies this`args
      ensures Emits(r, old(args), args, Compile(e, ctx, old(Next())))
      decreases e
    {
      match e
      case And(x, y) =>
        var l := Expr(x);
        if l.Err? {
          return l;
        }
        var rr := Expr(y);
        if rr.Err? {
          return rr;
        }
        return Ok([Open] + l.value + [AndKw] + rr.value + [Close]);
      case Or(x, y) =>
        var l := Expr(x);
        if l.Err? {
          return l;
        }
        var rr := Expr(y);
        if rr.Err? {
          return rr;
        }
        return Ok([Open] + l.value + [OrKw] + rr.value + [Close]);
      case Not(x) =>
        var inner := Expr(x);
        if inner.Err? {
          return inner;
        }
        return Ok([Open, NotKw] + inner.value + [Close]);
      case Comparison(_, _, _, _) =>
        r := Cmp(e);
    }

    method Cmp(c: Expr) returns (r: Result<seq<Tok>, SqlError>)
      requires c.Comparison?
      modifies this`args
      ensures Emits(r, old(args), args, CompileComparison(c, ctx, old(Next())))
      decreases c, 0
    {
      var f := LookupField(c.field);
      if f.None? {
        return Err(UnknownField);
      }
      if !OpAllowed(f.value, c.field, c.op) {
        return Err(OperatorNotAllowed);
      }
      match f.value.kind
      case KText => r := TextIdCmp(c, f.value);
      case KID => r := TextIdCmp(c, f.value);
      case KInt => r := ScalarComparison(c, f.value);
      case KDate => r := ScalarComparison(c, f.value);
      case KTagPrefix => r := TagPrefixCmp(c, f.value);
    }

    method TextIdCmp(c: Expr, f: Field) returns (r: Result<seq<Tok>, SqlError>)
      requires c.Comparison?
      modifies this`args
      ensures Emits(r, old(args), args, TextCmp(c, f, ctx, old(Next())))
    {
      var col := Column(f.column);
      if c.op == OP_CONTAINS || c.op == OP_NOT_CONTAINS {
        if c.value.None? {
          return Err(NeedsValue);
        }
        var pat := "%" + EscapeLike(c.value.value.raw) + "%";
        var negation: seq<Tok> := [];
        if c.op == OP_NOT_CONTAINS {
          negation := [NotKw];
        }
        var ph := Ph(TextArg(pat));
        return Ok([col] + negation + [ILikeKw, ph, EscapeKw, Literal("\\")]);
      } else if c.op == OP_EQ || c.op == OP_NE {
        if c.value.None? {
          return Err(NeedsValue);
        }
        var v := ResolveScalar(c.value.value, ctx);
        if v.Err? {
          return Err(v.error);
        }
        var ph := Ph(v.value);
        return Ok([col, Compare(ComparatorOf(c.op)), ph]);
      } else if c.op == OP_IN || c.op == OP_NOT_IN {
        var vals: seq<Arg> := [];
        var i := 0;
        assert c.list[0..] == c.list;
        CollectedNothing([], ResolveAll(c.list, ctx));
        while i < |c.list|
          invariant 0 <= i <= |c.list| && args == old(args)
          invariant ResolveAll(c.list, ctx) == Collected(vals, ResolveAll(c.list[i..], ctx))
        {
          assert c.list[i..][1..] == c.list[i + 1..];
          var v := ResolveScalar(c.list[i], ctx);
          if v.Err? {
            return Err(v.error);
          }
          CollectedTwice(vals, [v.value], ResolveAll(c.list[i + 1..], ctx));
          vals := vals + [v.value];
          i := i + 1;
        }
        CollectedNothing(vals, Ok([]));
        var ph := Ph(ListArg(vals));
        if c.op == OP_IN {
          return Ok([col, Compare(EqOp), AnyKw, Open, ph, Close]);
        }
        return Ok([col, Compare(NeOp), AllKw, Open, ph, Close]);
      }
      var test := EmptyTest(f.column);
      if c.op == OP_NOT_EMPTY {
        return Ok([NotKw] + test);
      }
      return Ok(test);
    }

    method ScalarComparison(c: Expr, f: Field) returns (r: Result<seq<Tok>, SqlError>)
      requires c.Comparison?
      modifies this`args
      ensures Emits(r, old(args), args, ScalarCmp(c, f, ctx, old(Next())))
    {
      if c.value.None? {
        return Err(NeedsValue);
      }
      var v: Result<Arg, SqlError>;
      if f.kind == KDate {
        v := ResolveDate(c.value.value.raw, ctx);
      } else {
        v := ResolveScalar(c.value.value, ctx);
      }
      if v.Err? {
        return Err(v.error);
      }
      var ph := Ph(v.value);
      return Ok([Column(f.column), Compare(ComparatorOf(c.op)), ph]);
    }

    method TagPrefixCmp(c: Expr, f: Field) returns (r: Result<seq<Tok>, SqlError>)
      requires c.Comparison?
      modifies this`args
      ensures Emits(r, old(args), args, TagCmp(c, f, ctx, old(Next())))
    {
      if c.op == OP_EQ || c.op == OP_NE {
        if c.value.None? {
          return Err(NeedsValue);
        }
        var v := TagValue(c.value.value, f.prefix, ctx);
        if v.Err? {
          return Err(v.error);
        }
        var test := TagPart(v.value);
        if c.op == OP_NE {
          return Ok([NotKw, Open] + test + [Close]);
        }
        return Ok(test);
      } else if c.op == OP_IN || c.op == OP_NOT_IN {
        var parts := TagParts(c.list, f);
        if parts.Err? {
          return Err(parts.error);
        }
        var joined := [Open] + parts.value + [Close];
        if c.op == OP_NOT_IN {
          return Ok([NotKw] + joined);
        }
        return Ok(joined);
      }
      r := TagPrefixEmpty(f, c.op == OP_NOT_EMPTY);
    }

    /** The test that one tag is present. */
    method TagPart(v: Arg) returns (part: seq<Tok>)
      modifies this`args
      ensures part == TagTest(old(Next())) && args == old(args) + [v]
    {
      var ph := Ph(v);
      part := [Column(TAGS), ContainsOp, ArrayKw, OpenBracket, ph, CloseBracket, TextArrayCast];
    }

    /** The parts of a tag list, joined by OR. */
    method TagParts(list: seq<Value>, f: Field) returns (r: Result<seq<Tok>, SqlError>)
      modifies this`args
      ensures match TagValues(list, f.prefix, ctx)
        case Err(e) => r == Err(e)
        case Ok(vals) => r == Ok(TagTests(old(Next()), |vals|)) && args == old(args) + vals
    {
      hide Collected, TagValue, TagTest;
      var joined: seq<Tok> := [];
      ghost var vals: seq<Arg> := [];
      var i := 0;
      assert list[0..] == list;
      CollectedNothing([], TagValues(list, f.prefix, ctx));
      while i < |list|
        invariant 0 <= i <= |list|
        invariant args == old(args) + vals && joined == TagTests(old(Next()), i) && |vals| == i
        invariant TagValues(list, f.prefix, ctx) == Collected(vals, TagValues(list[i..], f.prefix, ctx))
      {
        assert list[i..][1..] == list[i + 1..];
        var v := TagValue(list[i], f.prefix, ctx);
        if v.Err? {
          return Err(v.error);
        }
        CollectedTwice(vals, [v.value], TagValues(list[i + 1..], f.prefix, ctx));
        TagTestsAppend(old(Next()), i);
        hide Collected, TagValue, TagValues, TagTests, TagTest;
        var part := TagPart(v.value);
        joined := joined + (if i == 0 then [] else [OrKw]) + part;
        vals := vals + [v.value];
        i := i + 1;
      }
      assert list[i..] == [];
      CollectedNothing(vals, Ok([]));
      return Ok(joined);
    }

    method TagPrefixEmpty(f: Field, negate: bool) returns (r: Result<seq<Tok>, SqlError>)
      modifies this`args
      ensures var test := TagEmpty(f, old(Next()));
        Emits(r, old(args), args, Ok(if negate then Compiled(Negated(test.toks), test.args) else test))
    {
      var test: seq<Tok>;
      if f.prefix == "" {
        test := NO_TAGS;
      } else {
        var ph := Ph(TextArg(f.prefix + "%"));
        test := [NotKw, ExistsKw, Open, SelectKw, Number(1), FromKw, UnnestKw, Open, Column(TAGS), Close, Column("t"),
          WhereKw, Column("t"), LikeKw, ph, Close];
      }
      if negate {
        return Ok([NotKw, Open] + test + [Close]);
      }
      return Ok(test);
    }

    method Order(fs: seq<OrderField>) returns (r: Result<seq<OrderTerm>, SqlError>)
      ensures r == CompileOrder(fs)
    {
      var parts: seq<OrderTerm> := [];
      var i := 0;
      assert fs[0..] == fs;
      OrderedNothing(CompileOrder(fs));
      while i < |fs|
        invariant 0 <= i <= |fs|
        invariant CompileOrder(fs) == OrderedAfter(parts, CompileOrder(fs[i..]))
      {
        assert fs[i..][1..] == fs[i + 1..];
        var f := LookupField(fs[i].field);
        if f.None? {
          return Err(UnknownOrderField);
        }
        if f.value.kind == KTagPrefix {
          return Err(OrderByTag);
        }
        OrderedTwice(parts, [OrderTerm(f.value.column, fs[i].desc)], CompileOrder(fs[i + 1..]));
        parts := parts + [OrderTerm(f.value.column, fs[i].desc)];
        i := i + 1;
      }
      assert fs[i..] == [] && parts + [] == parts;
      return Ok(parts);
    }
  }

  lemma OrderedTwice(a: seq<OrderTerm>, b: seq<OrderTerm>, r: Result<seq<OrderTerm>, SqlError>)
    ensures OrderedAfter(a, OrderedAfter(b, r)) == OrderedAfter(a + b, r)
  {
    assert r.Ok? ==> a + (b + r.value) == a + b + r.value;
  }

  lemma OrderedNothing(r: Result<seq<OrderTerm>, SqlError>)
    ensures OrderedAfter([], r) == r
  {
    assert r.Ok? ==> [] + r.value == r.value;
  }

  method ToSQLAt(q: Query, ctx: EvalContext, startArg: int) returns (r: Result<SqlQuery, SqlError>)
    ensures r == ToSql(q, ctx, startArg)
  {
    var b := new SqlBuilder(ctx, startArg);
    var where := b.Expr(q.where);
    if where.Err? {
      return Err(where.error);
    }
    assert b.args == Compile(q.where, ctx, startArg + 1).value.args;
    var order := b.Order(q.orderBy);
    if order.Err? {
      return Err(order.error);
    }
    return Ok(SqlQuery(where.value, b.args, order.value));
  }
}
