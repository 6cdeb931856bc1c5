/** The recursive-descent parser (internal/hql/parser.go). The functions specify
    it over the tokens still to be read; class Parser is the code. */
module HqlParser {
  import opened Wrappers
  import opened Numerals
  import opened HqlAst
  import opened HqlLexer

  /** What a parse yields, and the tokens it leaves. */
  datatype Parsed<+T> = Parsed(value: T, rest: seq<Token>)

  /** The scanner ends every token list with EOF, and uses EOF nowhere else. */
  ghost predicate Ended(ts: seq<Token>): (b: bool)
    ensures b ==> ts != []
  {
    && ts != [] && ts[|ts| - 1].kind == EOF
    && forall i :: 0 <= i < |ts| - 1 ==> ts[i].kind != EOF
  }

  /** `rest` is what remains of `ts` after at least one token that is not EOF. */
  ghost predicate Consumed(ts: seq<Token>, rest: seq<Token>) {
    Ended(rest) && |rest| < |ts| && rest == ts[|ts| - |rest|..]
  }

  lemma Advance(ts: seq<Token>)
    requires Ended(ts) && ts[0].kind != EOF
    ensures Consumed(ts, ts[1..])
  {
    assert ts[1..][|ts| - 2] == ts[|ts| - 1];
    assert forall i :: 0 <= i < |ts[1..]| - 1 ==> ts[1..][i] == ts[i + 1];
  }

  predicate IsKeyword(t: Token, kw: string) {
    t.kind == Word && EqualFold(t.val, kw)
  }

  // ---- values and lists

  function ParseValue(ts: seq<Token>): (r: Result<Parsed<Value>, Error>)
    requires Ended(ts)
    ensures r.Ok? ==> Ended(r.value.rest) && |r.value.rest| < |ts|
    decreases |ts|, 1
  {
    var t := ts[0];
    if t.kind == Str then
      Advance(ts);
      Ok(Parsed(ValString(t.val), ts[1..]))
    else if t.kind == Word then
      Advance(ts);
      if ts[1].kind == LParen then
        Advance(ts[1..]);
        match ParseArgs(ts[2..])
        case Err(e) => Err(e)
        case Ok(args) =>
          if args.rest[0].kind != RParen then Err(ExpectedCloseCall)
          else
            Advance(args.rest);
            Ok(Parsed(ValFunc(t.val, args.value), args.rest[1..]))
      else Ok(Parsed(ValWord(t.val), ts[1..]))
    else Err(ExpectedValue)
  }

  /** Values separated by commas, a trailing comma allowed, up to what is not a
      comma. */
  function ParseArgs(ts: seq<Token>): (r: Result<Parsed<seq<Value>>, Error>)
    requires Ended(ts)
    ensures r.Ok? ==> Ended(r.value.rest) && |r.value.rest| <= |ts|
    decreases |ts|, 2
  {
    if ts[0].kind == RParen then Ok(Parsed([], ts))
    else
      match ParseValue(ts)
      case Err(e) => Err(e)
      case Ok(v) =>
        if v.rest[0].kind == Comma then
          Advance(v.rest);
          Appended([v.value], ParseArgs(v.rest[1..]))
        else Ok(Parsed([v.value], v.rest))
  }

  function Appended(done: seq<Value>, r: Result<Parsed<seq<Value>>, Error>): Result<Parsed<seq<Value>>, Error> {
    match r
    case Err(e) => Err(e)
    case Ok(p) => Ok(Parsed(done + p.value, p.rest))
  }

  function ParseList(ts: seq<Token>): (r: Result<Parsed<seq<Value>>, Error>)
    requires Ended(ts)
    ensures r.Ok? ==> Ended(r.value.rest) && |r.value.rest| < |ts|
  {
    if ts[0].kind != LParen then Err(ExpectedList)
    else
      Advance(ts);
      match ParseArgs(ts[1..])
      case Err(e) => Err(e)
      case Ok(list) =>
        if list.rest[0].kind != RParen then Err(ExpectedCloseList)
        else if list.value == [] then Err(EmptyList)
        else
          Advance(list.rest);
          Ok(Parsed(list.value, list.rest[1..]))
  }

  // ---- expressions

  function ParseComparison(ts: seq<Token>): (r: Result<Parsed<Expr>, Error>)
    requires Ended(ts)
    ensures r.Ok? ==> Ended(r.value.rest) && |r.value.rest| < |ts|
  {
    if ts[0].kind != Word then Err(ExpectedField)
    else
      Advance(ts);
      var field := ts[0].val;
      if ts[1].kind == Op then
        Advance(ts[1..]);
        match ParseValue(ts[2..])
        case Err(e) => Err(e)
        case Ok(v) => Ok(Parsed(Comparison(field, ts[1].val, Some(v.value), []), v.rest))
      else if IsKeyword(ts[1], "IN") then
        Advance(ts[1..]);
        InList(field, OP_IN, ParseList(ts[2..]))
      else if IsKeyword(ts[1], "NOT") then
        Advance(ts[1..]);
        if !IsKeyword(ts[2], "IN") then Err(ExpectedIn)
        else
          Advance(ts[2..]);
          InList(field, OP_NOT_IN, ParseList(ts[3..]))
      else if IsKeyword(ts[1], "IS") then
        Advance(ts[1..]);
        if IsKeyword(ts[2], "NOT") then
          Advance(ts[2..]);
          ParseEmpty(field, OP_NOT_EMPTY, ts[3..])
        else ParseEmpty(field, OP_EMPTY, ts[2..])
      else Err(ExpectedOperator)
  }

  function InList(field: string, op: string, r: Result<Parsed<seq<Value>>, Error>): Result<Parsed<Expr>, Error> {
    match r
    case Err(e) => Err(e)
    case Ok(list) => Ok(Parsed(Comparison(field, op, None, list.value), list.rest))
  }

  function ParseEmpty(field: string, op: string, ts: seq<Token>): (r: Result<Parsed<Expr>, Error>)
    requires Ended(ts)
    ensures r.Ok? ==> Ended(r.value.rest) && |r.value.rest| < |ts|
  {
    if !IsKeyword(ts[0], "EMPTY") then Err(ExpectedEmpty)
    else
      Advance(ts);
      Ok(Parsed(Comparison(field, op, None, []), ts[1..]))
  }

  function ParseOr(ts: seq<Token>): (r: Result<Parsed<Expr>, Error>)
    requires Ended(ts)
    ensures r.Ok? ==> Ended(r.value.rest) && |r.value.rest| < |ts|
    decreases |ts|, 4
  {
    match ParseAnd(ts)
    case Err(e) => Err(e)
    case Ok(left) => OrTail(left.value, left.rest)
  }

  /** The turns of the OR loop: what `left` becomes. */
  function OrTail(left: Expr, ts: seq<Token>): (r: Result<Parsed<Expr>, Error>)
    requires Ended(ts)
    ensures r.Ok? ==> Ended(r.value.rest) && |r.value.rest| <= |ts|
    decreases |ts|, 5
  {
    if IsKeyword(ts[0], "OR") then
      Advance(ts);
      match ParseAnd(ts[1..])
      case Err(e) => Err(e)
      case Ok(right) => OrTail(Or(left, right.value), right.rest)
    else Ok(Parsed(left, ts))
  }

  function ParseAnd(ts: seq<Token>): (r: Result<Parsed<Expr>, Error>)
    requires Ended(ts)
    ensures r.Ok? ==> Ended(r.value.rest) && |r.value.rest| < |ts|
    decreases |ts|, 2
  {
    match ParseNot(ts)
    case Err(e) => Err(e)
    case Ok(left) => AndTail(left.value, left.rest)
  }

  function AndTail(left: Expr, ts: seq<Token>): (r: Result<Parsed<Expr>, Error>)
    requires Ended(ts)
    ensures r.Ok? ==> Ended(r.value.rest) && |r.value.rest| <= |ts|
    decreases |ts|, 3
  {
    if IsKeyword(ts[0], "AND") then
      Advance(ts);
      match ParseNot(ts[1..])
      case Err(e) => Err(e)
      case Ok(right) => AndTail(And(left, right.value), right.rest)
    else Ok(Parsed(left, ts))
  }

  function ParseNot(ts: seq<Token>): (r: Result<Parsed<Expr>, Error>)
    requires Ended(ts)
    ensures r.Ok? ==> Ended(r.value.rest) && |r.value.rest| < |ts|
    decreases |ts|, 1
  {
    if IsKeyword(ts[0], "NOT") then
      Advance(ts);
      match ParseNot(ts[1..])
      case Err(e) => Err(e)
      case Ok(x) => Ok(Parsed(Not(x.value), x.rest))
    else ParsePrimary(ts)
  }

  function ParsePrimary(ts: seq<Token>): (r: Result<Parsed<Expr>, Error>)
    requires Ended(ts)
    ensures r.Ok? ==> Ended(r.value.rest) && |r.value.rest| < |ts|
    decreases |ts|, 0
  {
    if ts[0].kind == LParen then
      Advance(ts);
      match ParseOr(ts[1..])
      case Err(e) => Err(e)
      case Ok(x) =>
        if x.rest[0].kind != RParen then Err(ExpectedCloseParen)
        else
          Advance(x.rest);
          Ok(Parsed(x.value, x.rest[1..]))
    else ParseComparison(ts)
  }

  // ---- ORDER BY and LIMIT

  function ParseOrder(ts: seq<Token>): (r: Result<Parsed<seq<OrderField>>, Error>)
    requires Ended(ts)
    ensures r.Ok? ==> Ended(r.value.rest) && |r.value.rest| < |ts|
    decreases |ts|
  {
    if ts[0].kind != Word then Err(ExpectedOrderField)
    else
      Advance(ts);
      var field := ts[0].val;
      if IsKeyword(ts[1], "ASC") then
        Advance(ts[1..]);
        OrderTail(OrderField(field, false), ts[2..])
      else if IsKeyword(ts[1], "DESC") then
        Advance(ts[1..]);
        OrderTail(OrderField(field, true), ts[2..])
      else OrderTail(OrderField(field, false), ts[1..])
  }

  function OrderTail(f: OrderField, ts: seq<Token>): (r: Result<Parsed<seq<OrderField>>, Error>)
    requires Ended(ts)
    ensures r.Ok? ==> Ended(r.value.rest) && |r.value.rest| <= |ts|
    decreases |ts|
  {
    if ts[0].kind == Comma then
      Advance(ts);
      AppendedFields([f], ParseOrder(ts[1..]))
    else Ok(Parsed([f], ts))
  }

  function AppendedFields(done: seq<OrderField>, r: Result<Parsed<seq<OrderField>>, Error>)
    : Result<Parsed<seq<OrderField>>, Error>
  {
    match r
    case Err(e) => Err(e)
    case Ok(p) => Ok(Parsed(done + p.value, p.rest))
  }

  function ParseLimit(ts: seq<Token>): (r: Result<Parsed<int>, Error>)
    requires Ended(ts)
    ensures r.Ok? ==> Ended(r.value.rest) && |r.value.rest| < |ts|
  {
    if ts[0].kind != Word then Err(ExpectedLimitNumber)
    else
      match Atoi(ts[0].val)
      case None => Err(BadLimit)
      case Some(n) =>
        if n < 0 then Err(BadLimit)
        else
          Advance(ts);
          Ok(Parsed(n, ts[1..]))
  }

  // ---- queries

  function ParseOrderBy(ts: seq<Token>): (r: Result<Parsed<seq<OrderField>>, Error>)
    requires Ended(ts)
    ensures r.Ok? ==> Ended(r.value.rest)
  {
    if IsKeyword(ts[0], "ORDER") then
      Advance(ts);
      if !IsKeyword(ts[1], "BY") then Err(ExpectedBy)
      else
        Advance(ts[1..]);
        ParseOrder(ts[2..])
    else Ok(Parsed([], ts))
  }

  function ParseLimitClause(ts: seq<Token>): (r: Result<Parsed<int>, Error>)
    requires Ended(ts)
    ensures r.Ok? ==> Ended(r.value.rest)
  {
    if IsKeyword(ts[0], "LIMIT") then
      Advance(ts);
      ParseLimit(ts[1..])
    else Ok(Parsed(0, ts))
  }

  function ParseQuery(ts: seq<Token>): (r: Result<Query, Error>)
    requires Ended(ts)
  {
    if ts[0].kind == EOF then Err(EmptyQuery)
    else
      match ParseOr(ts)
      case Err(e) => Err(e)
      case Ok(where) =>
        match ParseOrderBy(where.rest)
        case Err(e) => Err(e)
        case Ok(order) =>
          match ParseLimitClause(order.rest)
          case Err(e) => Err(e)
          case Ok(limit) =>
            if limit.rest[0].kind != EOF then Err(UnexpectedToken)
            else Ok(Query(where.value, order.value, limit.value))
  }

  lemma {:induction false} TokensEnded(s: string)
    ensures Tokens(s).Ok? ==> Ended(Tokens(s).value)
    decreases |s|
  {
    if s != [] {
      var scan := Scan(s);
      match scan
      case Skip => TokensEnded(s[1..]);
      case Emit(tok, n) =>
        TokensEnded(s[n..]);
        if Tokens(s[n..]).Ok? {
          var rest := Tokens(s[n..]).value;
          assert forall i :: 1 <= i < |[tok] + rest| ==> ([tok] + rest)[i] == rest[i - 1];
        }
      case Fail(e) =>
    }
  }

  function Parse(input: string): (r: Result<Query, Error>) {
    match Tokens(input)
    case Err(e) => Err(e)
    case Ok(toks) =>
      TokensEnded(input);
      ParseQuery(toks)
  }

  // ---- the code

  /** What a method returns, and what it leaves to be read, as the specification
      function `spec` says. */
  ghost predicate Agrees<T>(r: Result<T, Error>, rest: seq<Token>, spec: Result<Parsed<T>, Error>) {
    match spec
    case Err(e) => r == Err(e)
    case Ok(p) => r == Ok(p.value) && rest == p.rest
  }

  class Parser {
    const toks: seq<Token>
    var pos: nat

    constructor (toks: seq<Token>)
      requires Ended(toks)
      ensures this.toks == toks && pos == 0 && Valid() && Rest() == toks
    {
      this.toks := toks;
      pos := 0;
    }

    /** The position never passes the EOF token. */
    ghost predicate Valid()
      reads this
    {
      pos < |toks| && Ended(Rest())
    }

    ghost function Rest(): (r: seq<Token>)
      reads this
      requires pos <= |toks|
      ensures r == toks[pos..]
    {
      toks[pos..]
    }

    function Peek(): (t: Token)
      reads this
      requires Valid()
      ensures t == Rest()[0]
    {
      toks[pos]
    }

    method Next() returns (t: Token)
      requires Valid() && Peek().kind != EOF
      modifies this`pos
      ensures Valid() && t == old(Peek()) && Rest() == old(Rest())[1..]
    {
      Advance(Rest());
      t := toks[pos];
      pos := pos + 1;
    }

    method ParseOrExpr() returns (r: Result<Expr, Error>)
      requires Valid()
      modifies this`pos
      ensures Valid() && Agrees(r, Rest(), ParseOr(old(Rest())))
      decreases |Rest()|, 4
    {
      ghost var all := Rest();
      var left := ParseAndExpr();
      if left.Err? {
        return left;
      }
      while IsKeyword(Peek(), "OR")
        invariant Valid() && left.Ok? && |Rest()| < |all|
        invariant ParseOr(all) == OrTail(left.value, Rest())
        decreases |Rest()|
      {
        var _ := Next();
        var right := ParseAndExpr();
        if right.Err? {
          return right;
        }
        left := Ok(Or(left.value, right.value));
      }
      return left;
    }

    method ParseAndExpr() returns (r: Result<Expr, Error>)
      requires Valid()
      modifies this`pos
      ensures Valid() && Agrees(r, Rest(), ParseAnd(old(Rest())))
      decreases |Rest()|, 3
    {
      ghost var all := Rest();
      var left := ParseNotExpr();
      if left.Err? {
        return left;
      }
      while IsKeyword(Peek(), "AND")
        invariant Valid() && left.Ok? && |Rest()| < |all|
        invariant ParseAnd(all) == AndTail(left.value, Rest())
        decreases |Rest()|
      {
        var _ := Next();
        var right := ParseNotExpr();
        if right.Err? {
          return right;
        }
        left := Ok(And(left.value, right.value));
      }
      return left;
    }

    method ParseNotExpr() returns (r: Result<Expr, Error>)
      requires Valid()
      modifies this`pos
      ensures Valid() && Agrees(r, Rest(), ParseNot(old(Rest())))
      decreases |Rest()|, 2
    {
      if IsKeyword(Peek(), "NOT") {
        var _ := Next();
        var x := ParseNotExpr();
        if x.Err? {
          return x;
        }
        return Ok(Not(x.value));
      }
      r := ParsePrimaryExpr();
    }

    method ParsePrimaryExpr() returns (r: Result<Expr, Error>)
      requires Valid()
      modifies this`pos
      ensures Valid() && Agrees(r, Rest(), ParsePrimary(old(Rest())))
      decreases |Rest()|, 1
    {
      if Peek().kind == LParen {
        var _ := Next();
        var e := ParseOrExpr();
        if e.Err? {
          return e;
        }
        if Peek().kind != RParen {
          return Err(ExpectedCloseParen);
        }
        var _ := Next();
        return e;
      }
      r := ParseComparisonExpr();
    }

    method ParseComparisonExpr() returns (r: Result<Expr, Error>)
      requires Valid()
      modifies this`pos
      ensures Valid() && Agrees(r, Rest(), ParseComparison(old(Rest())))
    {
      hide EqualFold, Ended, ParseValue, ParseList;
      if Peek().kind != Word {
        return Err(ExpectedField);
      }
      var f := Next();
      var field := f.val;
      if Peek().kind == Op {
        var op := Next();
        var v := ParseOneValue();
        if v.Err? {
          return Err(v.error);
        }
        return Ok(Comparison(field, op.val, Some(v.value), []));
      } else if IsKeyword(Peek(), "IN") {
        var _ := Next();
        var list := ParseValueList();
        if list.Err? {
          return Err(list.error);
        }
        return Ok(Comparison(field, OP_IN, None, list.value));
      } else if IsKeyword(Peek(), "NOT") {
        var _ := Next();
        if !IsKeyword(Peek(), "IN") {
          return Err(ExpectedIn);
        }
        var _ := Next();
        var list := ParseValueList();
        if list.Err? {
          return Err(list.error);
        }
        return Ok(Comparison(field, OP_NOT_IN, None, list.value));
      } else if IsKeyword(Peek(), "IS") {
        var _ := Next();
        var op := OP_EMPTY;
        if IsKeyword(Peek(), "NOT") {
          var _ := Next();
          op := OP_NOT_EMPTY;
        }
        if !IsKeyword(Peek(), "EMPTY") {
          return Err(ExpectedEmpty);
        }
        var _ := Next();
        return Ok(Comparison(field, op, None, []));
      }
      return Err(ExpectedOperator);
    }

    method ParseOneValue() returns (r: Result<Value, Error>)
      requires Valid()
      modifies this`pos
      ensures Valid() && Agrees(r, Rest(), ParseValue(old(Rest())))
      decreases |Rest()|, 0
    {
      var t := Peek();
      if t.kind == Str {
        var _ := Next();
        return Ok(ValString(t.val));
      } else if t.kind == Word {
        var _ := Next();
        if Peek().kind == LParen {
          var _ := Next();
          var args := ParseValues();
          if args.Err? {
            return Err(args.error);
          }
          if Peek().kind != RParen {
            return Err(ExpectedCloseCall);
          }
          var _ := Next();
          return Ok(ValFunc(t.val, args.value));
        }
        return Ok(ValWord(t.val));
      }
      return Err(ExpectedValue);
    }

    /** The loop that parseValue and parseList share. */
    method ParseValues() returns (r: Result<seq<Value>, Error>)
      requires Valid()
      modifies this`pos
      ensures Valid() && Agrees(r, Rest(), ParseArgs(old(Rest())))
      decreases |Rest()|, 1
    {
      ghost var all := Rest();
      var list: seq<Value> := [];
      AppendedNothing(ParseArgs(all));
      while Peek().kind != RParen
        invariant Valid() && |Rest()| <= |all|
        invariant ParseArgs(all) == Appended(list, ParseArgs(Rest()))
        decreases |Rest()|
      {
        ghost var here, before := Rest(), list;
        var v := ParseOneValue();
        if v.Err? {
          return Err(v.error);
        }
        list := list + [v.value];
        if Peek().kind == Comma {
          var _ := Next();
          AppendedTwice(before, [v.value], ParseArgs(Rest()));
          continue;
        }
        return Ok(list);
      }
      assert list + [] == list;
      return Ok(list);
    }

    method ParseValueList() returns (r: Result<seq<Value>, Error>)
      requires Valid()
      modifies this`pos
      ensures Valid() && Agrees(r, Rest(), ParseList(old(Rest())))
    {
      if Peek().kind != LParen {
        return Err(ExpectedList);
      }
      var _ := Next();
      var list := ParseValues();
      if list.Err? {
        return list;
      }
      if Peek().kind != RParen {
        return Err(ExpectedCloseList);
      }
      var _ := Next();
      if |list.value| == 0 {
        return Err(EmptyList);
      }
      return list;
    }

    method ParseOrderFields() returns (r: Result<seq<OrderField>, Error>)
      requires Valid()
      modifies this`pos
      ensures Valid() && Agrees(r, Rest(), ParseOrder(old(Rest())))
    {
      hide EqualFold, Ended;
      ghost var all := Rest();
      var out: seq<OrderField> := [];
      AppendedFieldsNothing(ParseOrder(all));
      while true
        invariant Valid() && |Rest()| <= |all|
        invariant ParseOrder(all) == AppendedFields(out, ParseOrder(Rest()))
        decreases |Rest()|
      {
        ghost var before := out;
        if Peek().kind != Word {
          return Err(ExpectedOrderField);
        }
        var f := Next();
        var of := OrderField(f.val, false);
        if IsKeyword(Peek(), "ASC") {
          var _ := Next();
        } else if IsKeyword(Peek(), "DESC") {
          var _ := Next();
          of := of.(desc := true);
        }
        out := out + [of];
        if Peek().kind == Comma {
          var _ := Next();
          AppendedFieldsTwice(before, [of], ParseOrder(Rest()));
          continue;
        }
        return Ok(out);
      }
    }

    method ParseLimitNumber() returns (r: Result<int, Error>)
      requires Valid()
      modifies this`pos
      ensures Valid() && Agrees(r, Rest(), ParseLimit(old(Rest())))
    {
      var t := Peek();
      if t.kind != Word {
        return Err(ExpectedLimitNumber);
      }
      var n := Atoi(t.val);
      if n.None? || n.value < 0 {
        return Err(BadLimit);
      }
      var _ := Next();
      return Ok(n.value);
    }
  }

  lemma AppendedNothing(r: Result<Parsed<seq<Value>>, Error>)
    ensures Appended([], r) == r
  {
    assert r.Ok? ==> [] + r.value.value == r.value.value;
  }

  lemma AppendedTwice(a: seq<Value>, b: seq<Value>, r: Result<Parsed<seq<Value>>, Error>)
    ensures Appended(a, Appended(b, r)) == Appended(a + b, r)
  {
    assert r.Ok? ==> a + (b + r.value.value) == a + b + r.value.value;
  }

  lemma AppendedFieldsNothing(r: Result<Parsed<seq<OrderField>>, Error>)
    ensures AppendedFields([], r) == r
  {
    assert r.Ok? ==> [] + r.value.value == r.value.value;
  }

  lemma AppendedFieldsTwice(a: seq<OrderField>, b: seq<OrderField>, r: Result<Parsed<seq<OrderField>>, Error>)
    ensures AppendedFields(a, AppendedFields(b, r)) == AppendedFields(a + b, r)
  {
    assert r.Ok? ==> a + (b + r.value.value) == a + b + r.value.value;
  }

  method ParseText(input: string) returns (r: Result<Query, Error>)
    ensures r == Parse(input)
  {
    var toks := Lex(input);
    if toks.Err? {
      return Err(toks.error);
    }
    TokensEnded(input);
    var p := new Parser(toks.value);
    if p.Peek().kind == EOF {
      return Err(EmptyQuery);
    }
    var where := p.ParseOrExpr();
    if where.Err? {
      return Err(where.error);
    }
    var q := Query(where.value, [], 0);
    if IsKeyword(p.Peek(), "ORDER") {
      var _ := p.Next();
      if !IsKeyword(p.Peek(), "BY") {
        return Err(ExpectedBy);
      }
      var _ := p.Next();
      var order := p.ParseOrderFields();
      if order.Err? {
        return Err(order.error);
      }
      q := q.(orderBy := order.value);
    }
    if IsKeyword(p.Peek(), "LIMIT") {
      var _ := p.Next();
      var limit := p.ParseLimitNumber();
      if limit.Err? {
        return Err(limit.error);
      }
      q := q.(limit := limit.value);
    }
    if p.Peek().kind != EOF {
      return Err(UnexpectedToken);
    }
    return Ok(q);
  }
}
