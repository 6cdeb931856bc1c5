/** What a filter means, and that the emitted SQL means the same. */
module HqlMeaning {
  import opened Wrappers
  import opened HqlAst
  import opened HqlSchema
  import opened HqlLiterals
  import opened HqlSql
  import opened HqlSqlRead
  import opened Like

  // ---- the meaning of a filter, three-valued because columns can be NULL

  /** The columns hold what the table declares them to hold. */
  ghost predicate RowOk(row: Row) {
    && (row(TAGS).Null? || row(TAGS).ArrayCell?)
    && forall name :: KindNamed(name).Some? ==> CellOk(row(ColumnNamed(name)), KindNamed(name).value)
  }

  predicate CellOk(cell: Cell, kind: FieldKind) {
    cell.Null? ||
    match kind
    case KText => cell.TextCell?
    case KID => cell.TextCell?
    case KInt => cell.IntCell?
    case KDate => cell.TimeCell?
    case KTagPrefix => cell.ArrayCell?
  }

  /** A text column against a literal: substring, equality, membership, emptiness. */
  ghost function TextMeaning(c: Expr, cell: Cell, ctx: EvalContext, s: Server): Truth
    requires c.Comparison?
  {
    if c.op == OP_EMPTY || c.op == OP_NOT_EMPTY then Of((cell == Null || cell == TextCell("")) == (c.op == OP_EMPTY))
    else if (c.op == OP_IN || c.op == OP_NOT_IN) && c.list == [] then Of(c.op == OP_NOT_IN)
    else if !cell.TextCell? then Unknown
    else if c.op == OP_IN || c.op == OP_NOT_IN then
      Of((exists i :: 0 <= i < |c.list| && s.TextOf(LiteralArg(c.list[i], ctx)) == cell.text) == (c.op == OP_IN))
    else if c.value.None? then Unknown
    else if c.op == OP_CONTAINS || c.op == OP_NOT_CONTAINS then
      Of(Contains(Fold(s.fold, cell.text), Fold(s.fold, c.value.value.raw)) == (c.op == OP_CONTAINS))
    else Of((cell.text == s.TextOf(LiteralArg(c.value.value, ctx))) == (c.op == OP_EQ))
  }

  /** What an operator says of two numbers or two instants. */
  predicate Relates(op: string, m: int, n: int) {
    match op
    case "=" => m == n
    case "!=" => m != n
    case ">" => m > n
    case ">=" => m >= n
    case "<" => m < n
    case "<=" => m <= n
    case _ => false
  }

  /** A number against a literal. */
  function NumberMeaning(c: Expr, cell: Cell, ctx: EvalContext, s: Server): Truth
    requires c.Comparison?
  {
    if cell.IntCell? && c.value.Some? then Of(Relates(c.op, cell.n, s.asInt(LiteralArg(c.value.value, ctx)))) else Unknown
  }

  /** An instant against a date, always the text of the literal. */
  function DateMeaning(c: Expr, cell: Cell, ctx: EvalContext): Truth
    requires c.Comparison?
  {
    if cell.TimeCell? && c.value.Some? && Instant(c.value.value.raw, ctx).Some? then
      Of(Relates(c.op, cell.time, Instant(c.value.value.raw, ctx).value))
    else Unknown
  }

  /** The tags of a concept, those of a family by its prefix. */
  ghost function TagMeaning(c: Expr, prefix: string, cell: Cell): Truth
    requires c.Comparison?
  {
    if c.op == OP_EMPTY || c.op == OP_NOT_EMPTY then
      var none := !cell.ArrayCell? || forall i :: 0 <= i < |cell.items| ==> !(prefix <= cell.items[i]);
      Of(none == (c.op == OP_EMPTY))
    else if !cell.ArrayCell? then Unknown
    else if c.op == OP_IN || c.op == OP_NOT_IN then
      Of((exists i :: 0 <= i < |c.list| && prefix + c.list[i].raw in cell.items) == (c.op == OP_IN))
    else if c.value.None? then Unknown
    else Of((prefix + c.value.value.raw in cell.items) == (c.op == OP_EQ))
  }

  ghost function ComparisonMeaning(c: Expr, ctx: EvalContext, s: Server, row: Row): Truth
    requires c.Comparison?
  {
    var name := Lower(c.field);
    var cell := row(ColumnNamed(name));
    match KindNamed(name)
    case None => Unknown
    case Some(KText) => TextMeaning(c, cell, ctx, s)
    case Some(KID) => TextMeaning(c, cell, ctx, s)
    case Some(KInt) => NumberMeaning(c, cell, ctx, s)
    case Some(KDate) => DateMeaning(c, cell, ctx)
    case Some(KTagPrefix) => TagMeaning(c, PrefixNamed(name), cell)
  }

  /** It says nothing of how a filter is compiled. */
  ghost function Meaning(e: Expr, ctx: EvalContext, s: Server, row: Row): Truth {
    match e
    case And(l, r) => Conj(Meaning(l, ctx, s, row), Meaning(r, ctx, s, row))
    case Or(l, r) => Disj(Meaning(l, ctx, s, row), Meaning(r, ctx, s, row))
    case Not(x) => Neg(Meaning(x, ctx, s, row))
    case Comparison(_, _, _, _) => ComparisonMeaning(e, ctx, s, row)
  }

  // ---- where numbering starts changes nothing but the numbers

  function ShiftTok(t: Tok, k: int): Tok {
    if t.Placeholder? then Placeholder(t.index + k) else t
  }

  function Shift(ts: seq<Tok>, k: int): (r: seq<Tok>)
    ensures |r| == |ts|
  {
    seq(|ts|, i requires 0 <= i < |ts| => ShiftTok(ts[i], k))
  }

  function Shifted(r: Result<Compiled, SqlError>, k: int): Result<Compiled, SqlError> {
    match r
    case Err(e) => Err(e)
    case Ok(c) => Ok(Compiled(Shift(c.toks, k), c.args))
  }

  lemma ShiftConcat(a: seq<Tok>, b: seq<Tok>, k: int)
    ensures Shift(a + b, k) == Shift(a, k) + Shift(b, k)
  {
  }

  lemma {:induction false} TagTestsShift(n: int, count: nat, k: int)
    ensures TagTests(n + k, count) == Shift(TagTests(n, count), k)
    decreases count
  {
    TagTestShift(n, k);
    hide TagTest;
    if count == 0 {
      assert Shift([], k) == [];
    } else if count > 1 {
      TagTestsShift(n + 1, count - 1, k);
      assert n + 1 + k == n + k + 1;
      hide Shift, TagTests;
      ShiftConcat(TagTest(n) + [OrKw], TagTests(n + 1, count - 1), k);
      ShiftConcat(TagTest(n), [OrKw], k);
      OrShift(k);
      TagTestsMore(n, count);
      TagTestsMore(n + k, count);
    }
  }

  lemma TagTestsMore(n: int, count: nat)
    requires count > 1
    ensures TagTests(n, count) == TagTest(n) + [OrKw] + TagTests(n + 1, count - 1)
  {
  }

  lemma OrShift(k: int)
    ensures Shift([OrKw], k) == [OrKw]
  {
  }

  lemma TagTestShift(n: int, k: int)
    ensures Shift(TagTest(n), k) == TagTest(n + k)
  {
  }

  lemma TextCmpShift(c: Expr, f: Field, ctx: EvalContext, next: int, k: int)
    requires c.Comparison?
    ensures TextCmp(c, f, ctx, next + k) == Shifted(TextCmp(c, f, ctx, next), k)
  {
    var col := f.column;
    LeafShift(col, c.op == OP_NOT_CONTAINS, ComparatorOf(c.op), next, k);
    LeafShift(col, c.op == OP_NOT_IN, ComparatorOf(c.op), next, k);
    hide ContainsTest, CompareTest, ListTest, EmptyTest, Shift, ResolveScalar, ResolveAll, EscapeLike, ComparatorOf;
  }

  /** The tests of one column. */
  lemma LeafShift(col: string, negated: bool, op: Comparator, n: int, k: int)
    ensures Shift(ContainsTest(col, negated, n), k) == ContainsTest(col, negated, n + k)
    ensures Shift(CompareTest(col, op, n), k) == CompareTest(col, op, n + k)
    ensures Shift(ListTest(col, negated, n), k) == ListTest(col, negated, n + k)
    ensures Shift(EmptyTest(col), k) == EmptyTest(col)
    ensures Shift([NotKw] + EmptyTest(col), k) == [NotKw] + EmptyTest(col)
  {
  }

  lemma ScalarCmpShift(c: Expr, f: Field, ctx: EvalContext, next: int, k: int)
    requires c.Comparison?
    ensures ScalarCmp(c, f, ctx, next + k) == Shifted(ScalarCmp(c, f, ctx, next), k)
  {
    LeafShift(f.column, false, ComparatorOf(c.op), next, k);
    hide CompareTest, Shift, ResolveScalar, ResolveDate, ComparatorOf;
  }

  lemma NegatedShift(ts: seq<Tok>, k: int)
    ensures Shift(Negated(ts), k) == Negated(Shift(ts, k))
    ensures Shift([Open] + ts + [Close], k) == [Open] + Shift(ts, k) + [Close]
    ensures Shift([NotKw] + ([Open] + ts + [Close]), k) == [NotKw] + ([Open] + Shift(ts, k) + [Close])
  {
  }

  lemma TagCmpShift(c: Expr, f: Field, ctx: EvalContext, next: int, k: int)
    requires c.Comparison?
    ensures TagCmp(c, f, ctx, next + k) == Shifted(TagCmp(c, f, ctx, next), k)
  {
    TagTestsShift(next, |c.list|, k);
    TagTestShift(next, k);
    NegatedShift(TagTest(next), k);
    assert Shift(TagEmpty(f, next).toks, k) == TagEmpty(f, next + k).toks;
    NegatedShift(TagEmpty(f, next).toks, k);
    NegatedShift(TagTests(next, |c.list|), k);
    hide TagTest, TagEmpty, TagTests, Shift, Negated, TagValue, TagValues;
  }

  lemma ComparisonShift(c: Expr, ctx: EvalContext, next: int, k: int)
    requires c.Comparison?
    ensures CompileComparison(c, ctx, next + k) == Shifted(CompileComparison(c, ctx, next), k)
  {
    var f := LookupField(c.field);
    hide LookupField, OpAllowed, TextCmp, ScalarCmp, TagCmp;
    if f.Some? {
      TextCmpShift(c, f.value, ctx, next, k);
      ScalarCmpShift(c, f.value, ctx, next, k);
      TagCmpShift(c, f.value, ctx, next, k);
    }
  }

  lemma JoinedShift(l: Compiled, connective: Tok, r: Result<Compiled, SqlError>, k: int)
    requires !connective.Placeholder?
    ensures Shifted(Joined(l, connective, r), k) == Joined(Compiled(Shift(l.toks, k), l.args), connective, Shifted(r, k))
  {
    if r.Ok? {
      var x := [Open] + l.toks + [connective];
      ShiftConcat(x + r.value.toks, [Close], k);
      ShiftConcat(x, r.value.toks, k);
      assert Shift(x, k) == [Open] + Shift(l.toks, k) + [connective];
      assert Shift([Close], k) == [Close];
    }
  }

  /** Compiling with another first number shifts every number and leaves the
      arguments alone. */
  lemma {:induction false} CompileShift(e: Expr, ctx: EvalContext, next: int, k: int)
    ensures Compile(e, ctx, next + k) == Shifted(Compile(e, ctx, next), k)
  {
    hide Shift, CompileComparison, Joined;
    match e {
      case And(l, r) =>
        CompileShift(l, ctx, next, k);
        if Compile(l, ctx, next).Ok? {
          var cl := Compile(l, ctx, next).value;
          CompileShift(r, ctx, next + |cl.args|, k);
          assert next + |cl.args| + k == next + k + |cl.args|;
          JoinedShift(cl, AndKw, Compile(r, ctx, next + |cl.args|), k);
          JoinedError(cl, Compiled(Shift(cl.toks, k), cl.args), AndKw, Compile(r, ctx, next + |cl.args|), k);
        }
      case Or(l, r) =>
        CompileShift(l, ctx, next, k);
        if Compile(l, ctx, next).Ok? {
          var cl := Compile(l, ctx, next).value;
          CompileShift(r, ctx, next + |cl.args|, k);
          assert next + |cl.args| + k == next + k + |cl.args|;
          JoinedShift(cl, OrKw, Compile(r, ctx, next + |cl.args|), k);
          JoinedError(cl, Compiled(Shift(cl.toks, k), cl.args), OrKw, Compile(r, ctx, next + |cl.args|), k);
        }
      case Not(x) =>
        CompileShift(x, ctx, next, k);
        if Compile(x, ctx, next).Ok? {
          NotShift(Compile(x, ctx, next).value.toks, k);
        }
      case Comparison(_, _, _, _) => ComparisonShift(e, ctx, next, k);
    }
  }

  lemma JoinedError(l: Compiled, m: Compiled, connective: Tok, r: Result<Compiled, SqlError>, k: int)
    ensures r.Err? ==> Joined(l, connective, r) == r && Joined(m, connective, Shifted(r, k)) == r
  {
  }

  lemma NotShift(ts: seq<Tok>, k: int)
    ensures Shift([Open, NotKw] + ts + [Close], k) == [Open, NotKw] + Shift(ts, k) + [Close]
  {
  }

  lemma CompileAnywhere(e: Expr, ctx: EvalContext, next: int)
    ensures Compile(e, ctx, next).Ok? <==> Compile(e, ctx, 0).Ok?
    ensures Compile(e, ctx, next).Ok? ==> Compile(e, ctx, next).value.args == Compile(e, ctx, 0).value.args
  {
    CompileShift(e, ctx, 0, next);
  }

  /** Splicing: a fragment numbered from `startArg` is the fragment numbered from
      nothing, shifted, with the same arguments and order. */
  lemma SplicedSql(q: Query, ctx: EvalContext, startArg: int)
    ensures match ToSql(q, ctx, 0)
      case Err(e) => ToSql(q, ctx, startArg) == Err(e)
      case Ok(sql) => ToSql(q, ctx, startArg) == Ok(SqlQuery(Shift(sql.where, startArg), sql.args, sql.order))
  {
    CompileShift(q.where, ctx, 1, startArg);
  }

  // ---- the numbers, from left to right

  function Numbers(ts: seq<Tok>): seq<int> {
    if ts == [] then []
    else (if ts[0].Placeholder? then [ts[0].index] else []) + Numbers(ts[1..])
  }

  function Range(first: int, n: nat): (r: seq<int>)
    ensures |r| == n
  {
    seq(n, i => first + i)
  }

  lemma NumbersHead(t: Tok, ts: seq<Tok>)
    ensures Numbers([t] + ts) == Numbers([t]) + Numbers(ts)
  {
    assert ([t] + ts)[1..] == ts && [t][1..] == [];
  }

  lemma {:induction false} NumbersConcat(a: seq<Tok>, b: seq<Tok>)
    ensures Numbers(a + b) == Numbers(a) + Numbers(b)
    decreases |a|
  {
    if a == [] {
      assert a + b == b;
    } else {
      var t, rest := a[0], a[1..];
      assert a + b == [t] + (rest + b) && a == [t] + rest;
      hide Numbers;
      NumbersHead(t, rest + b);
      NumbersHead(t, rest);
      NumbersConcat(rest, b);
      assert Numbers([t]) + (Numbers(rest) + Numbers(b)) == Numbers([t]) + Numbers(rest) + Numbers(b);
    }
  }

  lemma RangeSplit(first: int, m: nat, n: nat)
    ensures Range(first, m + n) == Range(first, m) + Range(first + m, n)
  {
  }

  /** Tokens without a placeholder. */
  predicate Plain(ts: seq<Tok>) {
    forall i :: 0 <= i < |ts| ==> !ts[i].Placeholder?
  }

  lemma {:induction false} NumbersPlain(ts: seq<Tok>)
    requires Plain(ts)
    ensures Numbers(ts) == []
  {
    if ts != [] {
      NumbersPlain(ts[1..]);
    }
  }

  lemma NumbersOne(a: seq<Tok>, n: int, b: seq<Tok>)
    requires Plain(a) && Plain(b)
    ensures Numbers(a + [Placeholder(n)] + b) == [n]
  {
    NumbersConcat(a + [Placeholder(n)], b);
    NumbersConcat(a, [Placeholder(n)]);
    NumbersPlain(a);
    NumbersPlain(b);
    assert [Placeholder(n)][1..] == [];
  }

  lemma NumbersWrapped(a: seq<Tok>, ts: seq<Tok>, b: seq<Tok>)
    requires Plain(a) && Plain(b)
    ensures Numbers(a + ts + b) == Numbers(ts)
  {
    NumbersConcat(a + ts, b);
    NumbersConcat(a, ts);
    NumbersPlain(a);
    NumbersPlain(b);
  }

  lemma ContainsNumbers(col: string, negated: bool, n: int)
    ensures Numbers(ContainsTest(col, negated, n)) == [n]
  {
    hide Numbers;
    var a := [Column(col)] + (if negated then [NotKw] else []) + [ILikeKw];
    NumbersOne(a, n, [EscapeKw, Literal("\\")]);
    assert ContainsTest(col, negated, n) == a + [Placeholder(n)] + [EscapeKw, Literal("\\")];
  }

  lemma CompareNumbers(col: string, op: Comparator, n: int)
    ensures Numbers(CompareTest(col, op, n)) == [n]
  {
    hide Numbers;
    NumbersOne([Column(col), Compare(op)], n, []);
    assert CompareTest(col, op, n) == [Column(col), Compare(op)] + [Placeholder(n)] + [];
  }

  lemma ListNumbers(col: string, negated: bool, n: int)
    ensures Numbers(ListTest(col, negated, n)) == [n]
  {
    hide Numbers;
    var b := [Column(col), Compare(if negated then NeOp else EqOp), if negated then AllKw else AnyKw, Open];
    NumbersOne(b, n, [Close]);
    assert ListTest(col, negated, n) == b + [Placeholder(n)] + [Close];
  }

  lemma EmptyNumbers(col: string)
    ensures Numbers(EmptyTest(col)) == [] && Numbers([NotKw] + EmptyTest(col)) == []
  {
    hide Numbers;
    NumbersPlain(EmptyTest(col));
    NumbersPlain([NotKw] + EmptyTest(col));
  }

  lemma TagNumbers(n: int)
    ensures Numbers(TagTest(n)) == [n]
    ensures Numbers(NoTagWithPrefix(n)) == [n] && Numbers(NO_TAGS) == []
  {
    var a := [Column(TAGS), ContainsOp, ArrayKw, OpenBracket];
    NumbersOne(a, n, [CloseBracket, TextArrayCast]);
    assert TagTest(n) == a + [Placeholder(n)] + [CloseBracket, TextArrayCast];
    var b := NoTagWithPrefix(n)[..14];
    NumbersOne(b, n, [Close]);
    assert NoTagWithPrefix(n) == b + [Placeholder(n)] + [Close];
    NumbersPlain(NO_TAGS);
  }

  lemma {:induction false} TagTestsNumbers(n: int, count: nat)
    ensures Numbers(TagTests(n, count)) == Range(n, count)
    decreases count
  {
    RangeSmall(n);
    TagNumbers(n);
    hide Numbers, Range, TagTest;
    if count == 0 {
      NumbersPlain([]);
    } else if count > 1 {
      TagTestsNumbers(n + 1, count - 1);
      RangeSplit(n, 1, count - 1);
      NumbersConcat(TagTest(n) + [OrKw], TagTests(n + 1, count - 1));
      NumbersConcat(TagTest(n), [OrKw]);
      NumbersPlain([OrKw]);
    }
  }

  lemma RangeSmall(first: int)
    ensures Range(first, 0) == [] && Range(first, 1) == [first]
  {
  }

  lemma ComparisonNumbers(c: Expr, ctx: EvalContext, next: int)
    requires c.Comparison? && CompileComparison(c, ctx, next).Ok?
    ensures var r := CompileComparison(c, ctx, next).value; Numbers(r.toks) == Range(next, |r.args|)
  {
    var f := LookupField(c.field).value;
    RangeSmall(next);
    hide LookupField, OpAllowed, Numbers, Range;
    match f.kind {
      case KText => TextNumbers(c, f, ctx, next);
      case KID => TextNumbers(c, f, ctx, next);
      case KInt => ScalarNumbers(c, f, ctx, next);
      case KDate => ScalarNumbers(c, f, ctx, next);
      case KTagPrefix => TagCmpNumbers(c, f, ctx, next);
    }
  }

  lemma TextNumbers(c: Expr, f: Field, ctx: EvalContext, next: int)
    requires c.Comparison? && TextCmp(c, f, ctx, next).Ok?
    ensures var r := TextCmp(c, f, ctx, next).value; Numbers(r.toks) == Range(next, |r.args|)
  {
    RangeSmall(next);
    hide ContainsTest, CompareTest, ListTest, EmptyTest, Numbers, Range, ResolveScalar, ResolveAll, EscapeLike, ComparatorOf;
    ContainsNumbers(f.column, c.op == OP_NOT_CONTAINS, next);
    CompareNumbers(f.column, ComparatorOf(c.op), next);
    ListNumbers(f.column, c.op == OP_NOT_IN, next);
    EmptyNumbers(f.column);
  }

  lemma ScalarNumbers(c: Expr, f: Field, ctx: EvalContext, next: int)
    requires c.Comparison? && ScalarCmp(c, f, ctx, next).Ok?
    ensures var r := ScalarCmp(c, f, ctx, next).value; Numbers(r.toks) == Range(next, |r.args|)
  {
    RangeSmall(next);
    CompareNumbers(f.column, ComparatorOf(c.op), next);
    hide CompareTest, Numbers, Range, ResolveScalar, ResolveDate;
  }

  lemma TagCmpNumbers(c: Expr, f: Field, ctx: EvalContext, next: int)
    requires c.Comparison? && TagCmp(c, f, ctx, next).Ok?
    ensures var r := TagCmp(c, f, ctx, next).value; Numbers(r.toks) == Range(next, |r.args|)
  {
    RangeSmall(next);
    TagNumbers(next);
    NumbersWrapped([NotKw, Open], TagTest(next), [Close]);
    NumbersWrapped([NotKw, Open], TagEmpty(f, next).toks, [Close]);
    TagTestsNumbers(next, |c.list|);
    var joined := TagTests(next, |c.list|);
    NumbersWrapped([Open], joined, [Close]);
    NumbersWrapped([NotKw], [Open] + joined + [Close], []);
    assert [NotKw] + ([Open] + joined + [Close]) + [] == [NotKw] + ([Open] + joined + [Close]);
    hide TagTest, TagTests, Numbers, Range, TagValue, TagValues, NoTagWithPrefix;
  }

  /** The emitted placeholders are next, next + 1, ... from left to right, one for
      each argument. */
  lemma {:induction false} PlaceholdersInOrder(e: Expr, ctx: EvalContext, next: int)
    requires Compile(e, ctx, next).Ok?
    ensures var c := Compile(e, ctx, next).value; Numbers(c.toks) == Range(next, |c.args|)
  {
    hide Numbers, Range, CompileComparison;
    match e {
      case And(l, r) =>
        var cl := Compile(l, ctx, next).value;
        PlaceholdersInOrder(l, ctx, next);
        PlaceholdersInOrder(r, ctx, next + |cl.args|);
        JoinedNumbers(cl, AndKw, Compile(r, ctx, next + |cl.args|).value, next);
      case Or(l, r) =>
        var cl := Compile(l, ctx, next).value;
        PlaceholdersInOrder(l, ctx, next);
        PlaceholdersInOrder(r, ctx, next + |cl.args|);
        JoinedNumbers(cl, OrKw, Compile(r, ctx, next + |cl.args|).value, next);
      case Not(x) =>
        PlaceholdersInOrder(x, ctx, next);
        NumbersWrapped([Open, NotKw], Compile(x, ctx, next).value.toks, [Close]);
      case Comparison(_, _, _, _) => ComparisonNumbers(e, ctx, next);
    }
  }

  lemma JoinedNumbers(l: Compiled, connective: Tok, r: Compiled, next: int)
    requires !connective.Placeholder?
    requires Numbers(l.toks) == Range(next, |l.args|) && Numbers(r.toks) == Range(next + |l.args|, |r.args|)
    ensures Numbers([Open] + l.toks + [connective] + r.toks + [Close]) == Range(next, |l.args| + |r.args|)
  {
    NumbersConcat([Open] + l.toks + [connective] + r.toks, [Close]);
    NumbersConcat([Open] + l.toks + [connective], r.toks);
    NumbersWrapped([Open], l.toks, [connective]);
    NumbersPlain([Close]);
    RangeSplit(next, |l.args|, |r.args|);
  }
}
