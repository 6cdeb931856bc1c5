/** A printer for queries: NOT binds tighter than AND, AND tighter than OR, both
    group to the left, and parentheses appear only where that grouping differs. */
module HqlPrinter {
  import opened Wrappers
  import opened Numerals
  import opened HqlAst
  import opened HqlLexer
  import opened HqlGrammar

  // ---- the queries that have a text

  predicate ValueOk(v: Value) {
    match v
    case ValString(_) => true
    case ValWord(raw) => IsWord(raw)
    case ValFunc(raw, args) => IsWord(raw) && ValuesOk(args)
  }

  predicate ValuesOk(vs: seq<Value>) {
    vs == [] || (ValueOk(vs[0]) && ValuesOk(vs[1..]))
  }

  predicate ExprOk(e: Expr) {
    match e
    case And(l, r) => ExprOk(l) && ExprOk(r)
    case Or(l, r) => ExprOk(l) && ExprOk(r)
    case Not(x) => ExprOk(x)
    case Comparison(field, op, value, list) =>
      && IsWord(field) && !EqualFold(field, "NOT")
      && if IsSymbol(op) then value.Some? && ValueOk(value.value) && list == []
         else if op == OP_IN || op == OP_NOT_IN then value.None? && list != [] && ValuesOk(list)
         else (op == OP_EMPTY || op == OP_NOT_EMPTY) && value.None? && list == []
  }

  predicate OrderOk(fs: seq<OrderField>) {
    forall i :: 0 <= i < |fs| ==> IsWord(fs[i].field)
  }

  predicate QueryOk(q: Query) {
    ExprOk(q.where) && OrderOk(q.orderBy) && 0 <= q.limit <= MAX_INT
  }

  // ---- tokens

  function Keyword(kw: string): Token {
    Token(Word, kw)
  }

  function ValueTokens(v: Value): seq<Token>
    decreases v, 0
  {
    match v
    case ValString(raw) => [Token(Str, raw)]
    case ValWord(raw) => [Token(Word, raw)]
    case ValFunc(raw, args) => [Token(Word, raw), OPEN] + ValuesTokens(args) + [CLOSE]
  }

  function ValuesTokens(vs: seq<Value>): seq<Token>
    decreases vs, 1
  {
    if vs == [] then []
    else if |vs| == 1 then ValueTokens(vs[0])
    else ValueTokens(vs[0]) + [COMMA] + ValuesTokens(vs[1..])
  }

  function ComparisonTokens(field: string, op: string, value: Option<Value>, list: seq<Value>): seq<Token> {
    [Token(Word, field)] +
    if value.Some? then [Token(Op, op)] + ValueTokens(value.value)
    else if op == OP_IN then [Keyword("IN"), OPEN] + ValuesTokens(list) + [CLOSE]
    else if op == OP_NOT_IN then [Keyword("NOT"), Keyword("IN"), OPEN] + ValuesTokens(list) + [CLOSE]
    else if op == OP_EMPTY then [Keyword("IS"), Keyword("EMPTY")]
    else [Keyword("IS"), Keyword("NOT"), Keyword("EMPTY")]
  }

  /** How tightly the outermost operator binds: OR 0, AND 1, everything else 2. */
  function Strength(e: Expr): (n: nat)
    ensures n <= 2
  {
    match e
    case Or(_, _) => 0
    case And(_, _) => 1
    case _ => 2
  }

  function Bare(e: Expr): seq<Token>
    decreases e, 0
  {
    match e
    case Or(l, r) => ExprTokens(l, 0) + [Keyword("OR")] + ExprTokens(r, 1)
    case And(l, r) => ExprTokens(l, 1) + [Keyword("AND")] + ExprTokens(r, 2)
    case Not(x) => [Keyword("NOT")] + ExprTokens(x, 2)
    case Comparison(field, op, value, list) => ComparisonTokens(field, op, value, list)
  }

  function ExprTokens(e: Expr, level: nat): seq<Token>
    decreases e, 1
  {
    if Strength(e) < level then [OPEN] + Bare(e) + [CLOSE] else Bare(e)
  }

  function OrderFieldTokens(f: OrderField): seq<Token> {
    if f.desc then [Token(Word, f.field), Keyword("DESC")] else [Token(Word, f.field)]
  }

  function OrderTokens(fs: seq<OrderField>): seq<Token> {
    if fs == [] then []
    else if |fs| == 1 then OrderFieldTokens(fs[0])
    else OrderFieldTokens(fs[0]) + [COMMA] + OrderTokens(fs[1..])
  }

  function OrderByTokens(fs: seq<OrderField>): seq<Token> {
    if fs == [] then [] else [Keyword("ORDER"), Keyword("BY")] + OrderTokens(fs)
  }

  function LimitTokens(n: int): seq<Token> {
    if n <= 0 then [] else [Keyword("LIMIT"), Token(Word, NumberText(n))]
  }

  function QueryTokens(q: Query): seq<Token> {
    ExprTokens(q.where, 0) + OrderByTokens(q.orderBy) + LimitTokens(q.limit)
  }

  // ---- text

  function TokenText(t: Token): string {
    if t.kind == Str then Quoted(t.val, '\'') else t.val
  }

  function Text(ts: seq<Token>): string {
    if ts == [] then "" else TokenText(ts[0]) + " " + Text(ts[1..])
  }

  function Print(q: Query): string {
    Text(QueryTokens(q))
  }
}
