/** Which queries compile, and what is wrong with the first that does not. */
module HqlErrors {
  import opened Wrappers
  import opened HqlAst
  import opened HqlSchema
  import opened HqlSql
  import opened HqlLiterals

  // ---- operators

  const EQUALITY := {"=", "!="}
  const CONTAINMENT := {"~", "!~"}
  const ORDERING := {">", ">=", "<", "<="}
  const MEMBERSHIP := {"in", "notin"}
  const EMPTINESS := {"empty", "notempty"}

  function Operators(name: string, kind: FieldKind): set<string> {
    match kind
    case KText => EQUALITY + CONTAINMENT + MEMBERSHIP + EMPTINESS
    case KID => EQUALITY + MEMBERSHIP + if name == "id" then CONTAINMENT else {}
    case KInt => EQUALITY + ORDERING
    case KDate => EQUALITY + ORDERING
    case KTagPrefix => EQUALITY + MEMBERSHIP + EMPTINESS
  }

  lemma OperatorsAllowed(f: Field, field: string, op: string)
    ensures OpAllowed(f, field, op) <==> op in Operators(Lower(field), f.kind)
  {
    FoldsToId(field);
    hide Lower, EqualFold;
  }

  lemma FoldsToId(field: string)
    ensures EqualFold(field, "id") <==> Lower(field) == "id"
  {
    if |field| == 2 {
      assert Upper(field) == [UpperChar(field[0]), UpperChar(field[1])];
      assert Lower(field) == [LowerChar(field[0]), LowerChar(field[1])];
      assert Upper("id") == ['I', 'D'];
      assert "id" == ['i', 'd'];
    }
  }

  // ---- literals

  function LiteralError(v: Value): Option<SqlError> {
    if !v.ValFunc? then None
    else if Lower(v.raw) !in FUNCTIONS then Some(UnsupportedFunction)
    else if v.args != [] then Some(WrongArity)
    else None
  }

  /** A tag cannot be an instant. */
  function TagError(v: Value): Option<SqlError> {
    if LiteralError(v).Some? then LiteralError(v) else if v.ValFunc? then Some(TagValueNotText) else None
  }

  function ValueError(v: Value, kind: FieldKind, ctx: EvalContext): Option<SqlError> {
    match kind
    case KTagPrefix => TagError(v)
    case KDate => if Instant(v.raw, ctx).None? then Some(NotADate) else None
    case _ => LiteralError(v)
  }

  /** The error of the first value that has one. */
  function ListError(list: seq<Value>, kind: FieldKind, ctx: EvalContext): Option<SqlError> {
    if list == [] then None
    else if ValueError(list[0], kind, ctx).Some? then ValueError(list[0], kind, ctx)
    else ListError(list[1..], kind, ctx)
  }

  // ---- conditions

  /** The error of an allowed operator with its operands. */
  function OperandError(c: Expr, kind: FieldKind, ctx: EvalContext): Option<SqlError>
    requires c.Comparison?
  {
    if c.op in EMPTINESS then None
    else if c.op in MEMBERSHIP then ListError(c.list, kind, ctx)
    else if c.value.None? then Some(NeedsValue)
    else if c.op in CONTAINMENT then None
    else ValueError(c.value.value, kind, ctx)
  }

  function ComparisonError(c: Expr, ctx: EvalContext): Option<SqlError>
    requires c.Comparison?
  {
    match KindNamed(Lower(c.field))
    case None => Some(UnknownField)
    case Some(kind) =>
      if c.op !in Operators(Lower(c.field), kind) then Some(OperatorNotAllowed)
      else OperandError(c, kind, ctx)
  }

  /** The error of the leftmost comparison that has one. */
  function FirstError(e: Expr, ctx: EvalContext): Option<SqlError> {
    match e
    case And(l, r) => if FirstError(l, ctx).Some? then FirstError(l, ctx) else FirstError(r, ctx)
    case Or(l, r) => if FirstError(l, ctx).Some? then FirstError(l, ctx) else FirstError(r, ctx)
    case Not(x) => FirstError(x, ctx)
    case Comparison(_, _, _, _) => ComparisonError(e, ctx)
  }

  /** `r` fails with the error, or succeeds when there is none. */
  predicate FailsWith<T>(r: Result<T, SqlError>, error: Option<SqlError>) {
    match error
    case None => r.Ok?
    case Some(e) => r == Err(e)
  }

  lemma LiteralFails(v: Value, ctx: EvalContext, prefix: string)
    ensures FailsWith(ResolveScalar(v, ctx), LiteralError(v))
    ensures FailsWith(TagValue(v, prefix, ctx), TagError(v))
  {
    LiteralValue(v, ctx);
    hide ResolveScalar, Lower;
  }

  lemma {:induction false} ListFails(list: seq<Value>, kind: FieldKind, ctx: EvalContext, prefix: string)
    ensures kind == KText || kind == KID ==> FailsWith(ResolveAll(list, ctx), ListError(list, kind, ctx))
    ensures kind == KTagPrefix ==> FailsWith(TagValues(list, prefix, ctx), ListError(list, kind, ctx))
  {
    if list != [] {
      LiteralFails(list[0], ctx, prefix);
      ListFails(list[1..], kind, ctx, prefix);
      hide ResolveScalar, TagValue, LiteralError, TagError;
    }
  }

  lemma ComparisonFails(c: Expr, ctx: EvalContext, next: int)
    requires c.Comparison?
    ensures FailsWith(CompileComparison(c, ctx, next), ComparisonError(c, ctx))
  {
    FieldNamed(c.field);
    hide LookupField, KindNamed, Lower, OpAllowed, TextCmp, ScalarCmp, TagCmp, OperandError, Operators, ColumnNamed;
    if LookupField(c.field).Some? {
      var f := LookupField(c.field).value;
      OperatorsAllowed(f, c.field, c.op);
      if OpAllowed(f, c.field, c.op) {
        match f.kind {
          case KText => TextFails(c, f, ctx, next);
          case KID => TextFails(c, f, ctx, next);
          case KInt => ScalarFails(c, f, ctx, next);
          case KDate => ScalarFails(c, f, ctx, next);
          case KTagPrefix => TagFails(c, f, ctx, next);
        }
      }
    }
  }

  lemma TextFails(c: Expr, f: Field, ctx: EvalContext, next: int)
    requires c.Comparison? && (f.kind == KText || f.kind == KID) && c.op in Operators(Lower(c.field), f.kind)
    ensures FailsWith(TextCmp(c, f, ctx, next), OperandError(c, f.kind, ctx))
  {
    ListFails(c.list, f.kind, ctx, "");
    if c.value.Some? {
      LiteralFails(c.value.value, ctx, "");
    }
    hide ListError, LiteralError, ResolveScalar, ResolveAll, Lower, EmptyTest, ContainsTest, CompareTest, ListTest;
  }

  lemma ScalarFails(c: Expr, f: Field, ctx: EvalContext, next: int)
    requires c.Comparison? && (f.kind == KInt || f.kind == KDate) && c.op in Operators(Lower(c.field), f.kind)
    ensures FailsWith(ScalarCmp(c, f, ctx, next), OperandError(c, f.kind, ctx))
  {
    if c.value.Some? {
      LiteralFails(c.value.value, ctx, "");
      DateLiteral(c.value.value.raw, ctx);
    }
    hide ListError, LiteralError, ResolveScalar, ResolveDate, Instant, Lower, CompareTest;
  }

  lemma TagFails(c: Expr, f: Field, ctx: EvalContext, next: int)
    requires c.Comparison? && f.kind == KTagPrefix && c.op in Operators(Lower(c.field), f.kind)
    ensures FailsWith(TagCmp(c, f, ctx, next), OperandError(c, f.kind, ctx))
  {
    ListFails(c.list, f.kind, ctx, f.prefix);
    if c.value.Some? {
      LiteralFails(c.value.value, ctx, f.prefix);
    }
    hide ListError, TagError, TagValue, TagValues, Lower, TagTest, TagTests, TagEmpty, Negated;
  }

  /** A condition compiles exactly when no comparison in it is wrong; otherwise the
      error is that of the leftmost one that is. */
  lemma {:induction false} CompileFails(e: Expr, ctx: EvalContext, next: int)
    ensures FailsWith(Compile(e, ctx, next), FirstError(e, ctx))
  {
    hide CompileComparison, ComparisonError;
    match e {
      case And(l, r) =>
        CompileFails(l, ctx, next);
        if Compile(l, ctx, next).Ok? {
          CompileFails(r, ctx, next + |Compile(l, ctx, next).value.args|);
        }
      case Or(l, r) =>
        CompileFails(l, ctx, next);
        if Compile(l, ctx, next).Ok? {
          CompileFails(r, ctx, next + |Compile(l, ctx, next).value.args|);
        }
      case Not(x) => CompileFails(x, ctx, next);
      case Comparison(_, _, _, _) => ComparisonFails(e, ctx, next);
    }
  }

  // ---- the order

  function OrderError(fs: seq<OrderField>): Option<SqlError> {
    if fs == [] then None
    else if KindNamed(Lower(fs[0].field)).None? then Some(UnknownOrderField)
    else if KindNamed(Lower(fs[0].field)).value == KTagPrefix then Some(OrderByTag)
    else OrderError(fs[1..])
  }

  /** The columns of the order are those of its fields, each in the direction asked for. */
  lemma {:induction false} OrderNamed(fs: seq<OrderField>)
    ensures FailsWith(CompileOrder(fs), OrderError(fs))
    ensures CompileOrder(fs).Ok? ==>
      && |CompileOrder(fs).value| == |fs|
      && forall i :: 0 <= i < |fs| ==>
        CompileOrder(fs).value[i] == OrderTerm(ColumnNamed(Lower(fs[i].field)), fs[i].desc)
  {
    if fs != [] {
      FieldNamed(fs[0].field);
      OrderNamed(fs[1..]);
      hide LookupField, KindNamed, ColumnNamed, Lower;
    }
  }

  /** A whole query: the condition first, then its order. */
  lemma QueryFails(q: Query, ctx: EvalContext, startArg: int)
    ensures FailsWith(ToSql(q, ctx, startArg),
      if FirstError(q.where, ctx).Some? then FirstError(q.where, ctx) else OrderError(q.orderBy))
  {
    CompileFails(q.where, ctx, startArg + 1);
    OrderNamed(q.orderBy);
    hide Compile, CompileOrder, FirstError, OrderError;
  }
}
