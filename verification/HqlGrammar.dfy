/** The language of filters as a grammar: which tokens may be written for a query, with
    every freedom the language leaves. Nothing here says how they are parsed. */
module HqlGrammar {
  import opened Wrappers
  import opened Numerals
  import opened HqlAst
  import opened HqlLexer
  import opened HqlParser

  predicate Bracketed(ts: seq<Token>) {
    |ts| >= 2 && ts[0].kind == LParen && ts[|ts| - 1].kind == RParen
  }

  function Inside(ts: seq<Token>): (r: seq<Token>)
    requires Bracketed(ts)
    ensures |r| == |ts| - 2
  {
    ts[1..|ts| - 1]
  }

  // ---- values

  ghost predicate IsValue(ts: seq<Token>, v: Value)
    decreases |ts|, 0
  {
    match v
    case ValString(raw) => ts == [Token(Str, raw)]
    case ValWord(raw) => ts == [Token(Word, raw)]
    case ValFunc(raw, args) =>
      ts != [] && ts[0] == Token(Word, raw) && Bracketed(ts[1..]) && IsArgs(Inside(ts[1..]), args)
  }

  /** Values with commas between them; one more comma may follow the last. */
  ghost predicate IsArgs(ts: seq<Token>, vs: seq<Value>)
    decreases |ts|, 1
  {
    if vs == [] then ts == []
    else
      || (|vs| == 1 && IsValue(ts, vs[0]))
      || exists k: nat :: 0 < k < |ts| && ts[k].kind == Comma && IsValue(ts[..k], vs[0]) && IsArgs(ts[k + 1..], vs[1..])
  }

  ghost predicate IsList(ts: seq<Token>, vs: seq<Value>) {
    vs != [] && Bracketed(ts) && IsArgs(Inside(ts), vs)
  }

  // ---- conditions

  /** A field with an operator and a value, [NOT] IN a list, or IS [NOT] EMPTY. */
  ghost predicate IsComparison(ts: seq<Token>, c: Expr) {
    && c.Comparison? && |ts| >= 3 && ts[0] == Token(Word, c.field) && !IsKeyword(ts[0], "NOT")
    && (|| (ts[1] == Token(Op, c.op) && c.value.Some? && c.list == [] && IsValue(ts[2..], c.value.value))
        || (c.value.None? && c.op == "in" && IsKeyword(ts[1], "IN") && IsList(ts[2..], c.list))
        || (c.value.None? && c.op == "notin" && IsKeyword(ts[1], "NOT") && IsKeyword(ts[2], "IN") && IsList(ts[3..], c.list))
        || (c == Comparison(c.field, "empty", None, []) && |ts| == 3 && IsKeyword(ts[1], "IS") && IsKeyword(ts[2], "EMPTY"))
        || (c == Comparison(c.field, "notempty", None, []) && |ts| == 4 && IsKeyword(ts[1], "IS") && IsKeyword(ts[2], "NOT")
            && IsKeyword(ts[3], "EMPTY")))
  }

  /** Conjunctions joined by OR from the left. */
  ghost predicate IsOr(ts: seq<Token>, e: Expr)
    decreases |ts|, 3
  {
    || IsAnd(ts, e)
    || (e.Or? && exists k: nat :: k < |ts| && IsKeyword(ts[k], "OR") && IsOr(ts[..k], e.l) && IsAnd(ts[k + 1..], e.r))
  }

  /** Negations joined by AND from the left. */
  ghost predicate IsAnd(ts: seq<Token>, e: Expr)
    decreases |ts|, 2
  {
    || IsNot(ts, e)
    || (e.And? && exists k: nat :: k < |ts| && IsKeyword(ts[k], "AND") && IsAnd(ts[..k], e.l) && IsNot(ts[k + 1..], e.r))
  }

  /** NOT any number of times before a comparison or a condition in parentheses. */
  ghost predicate IsNot(ts: seq<Token>, e: Expr)
    decreases |ts|, 1
  {
    || (e.Not? && ts != [] && IsKeyword(ts[0], "NOT") && IsNot(ts[1..], e.x))
    || (Bracketed(ts) && IsOr(Inside(ts), e))
    || IsComparison(ts, e)
  }

  // ---- order, limit and query

  /** A field, ascending unless DESC follows; ASC may be written. */
  predicate IsOrderItem(ts: seq<Token>, f: OrderField) {
    && 1 <= |ts| <= 2 && ts[0] == Token(Word, f.field)
    && if |ts| == 1 then !f.desc else IsKeyword(ts[1], if f.desc then "DESC" else "ASC")
  }

  ghost predicate IsOrder(ts: seq<Token>, fs: seq<OrderField>)
    decreases |ts|
  {
    fs != [] &&
    (|| (|fs| == 1 && IsOrderItem(ts, fs[0]))
     || exists k: nat :: k < |ts| && ts[k].kind == Comma && IsOrderItem(ts[..k], fs[0]) && IsOrder(ts[k + 1..], fs[1..]))
  }

  ghost predicate IsOrderBy(ts: seq<Token>, fs: seq<OrderField>) {
    if fs == [] then ts == []
    else |ts| > 2 && IsKeyword(ts[0], "ORDER") && IsKeyword(ts[1], "BY") && IsOrder(ts[2..], fs)
  }

  /** Without LIMIT the limit is 0, which stands for none. */
  predicate IsLimit(ts: seq<Token>, n: int) {
    if ts == [] then n == 0
    else |ts| == 2 && IsKeyword(ts[0], "LIMIT") && ts[1].kind == Word && Atoi(ts[1].val) == Some(n) && n >= 0
  }

  ghost predicate IsQuery(ts: seq<Token>, q: Query) {
    exists i, j :: QuerySplits(ts, q, i, j)
  }

  ghost predicate QuerySplits(ts: seq<Token>, q: Query, i: nat, j: nat) {
    i <= j <= |ts| && IsOr(ts[..i], q.where) && IsOrderBy(ts[i..j], q.orderBy) && IsLimit(ts[j..], q.limit)
  }

  // ---- spelling

  predicate IsWord(s: string) {
    s != [] && forall i :: 0 <= i < |s| ==> IsWordByte(s[i])
  }

  predicate IsSymbol(op: string) {
    op == "=" || op == "~" || op == "!" || op == "!=" || op == "!~"
    || op == "<" || op == "<=" || op == ">" || op == ">="
  }

  /** `s` with every quote `q` written twice. */
  function Doubled(s: string, q: char): string {
    if s == [] then [] else (if s[0] == q then [q, q] else [s[0]]) + Doubled(s[1..], q)
  }

  function Quoted(s: string, q: char): string {
    [q] + Doubled(s, q) + [q]
  }

  /** `w` spells the token: a string in quotes of either kind, the rest as itself. */
  predicate Spells(w: string, t: Token) {
    match t.kind
    case EOF => false
    case Word => w == t.val && IsWord(w)
    case Str => w == Quoted(t.val, '\'') || w == Quoted(t.val, '"')
    case Op => w == t.val && IsSymbol(w)
    case LParen => w == "(" && t.val == "("
    case RParen => w == ")" && t.val == ")"
    case Comma => w == "," && t.val == ","
  }

  /** The text after the spelling would make it longer: more of a word, a doubled quote,
      an operator of two characters. */
  predicate RunsOn(w: string, t: Token, rest: string)
    requires w != []
  {
    rest != [] &&
    match t.kind
    case Word => IsWordByte(rest[0])
    case Str => rest[0] == w[0]
    case Op => IsSymbol(w + [rest[0]])
    case _ => false
  }

  /** The tokens in order, white space anywhere between them. */
  ghost predicate Written(s: string, ts: seq<Token>)
    decreases |s|
  {
    || (s == [] && ts == [])
    || (s != [] && IsSpace(s[0]) && Written(s[1..], ts))
    || (ts != [] && exists n: nat ::
          0 < n <= |s| && Spells(s[..n], ts[0]) && !RunsOn(s[..n], ts[0], s[n..]) && Written(s[n..], ts[1..]))
  }

  /** A text of the language. */
  ghost predicate IsText(s: string, q: Query) {
    exists ts :: Written(s, ts) && IsQuery(ts, q)
  }
}
