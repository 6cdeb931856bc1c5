/** Printing and parsing undo each other. */
module HqlRoundTrip {
  import opened Wrappers
  import opened Numerals
  import opened HqlAst
  import opened HqlLexer
  import opened HqlParser
  import opened HqlGrammar
  import opened HqlAccepted
  import opened HqlScanned
  import opened HqlPrinter

  // ---- a printed text is a text of its tokens

  predicate Writable(t: Token) {
    Spells(TokenText(t), t)
  }

  predicate AllWritable(ts: seq<Token>) {
    forall i :: 0 <= i < |ts| ==> Writable(ts[i])
  }

  lemma TokenWritten(t: Token, rest: string)
    requires Writable(t)
    ensures Starts(TokenText(t) + " " + rest, t, |TokenText(t)|)
  {
    hide Doubled;
    var w := TokenText(t);
    var s := w + " " + rest;
    assert s[..|w|] == w && s[|w|..] == " " + rest && s[|w|..][0] == ' ';
    assert w != [];
  }

  lemma {:induction false} TextWritten(ts: seq<Token>)
    requires AllWritable(ts)
    ensures Written(Text(ts), ts)
    decreases |ts|
  {
    hide Writable, Starts, TokenText, Written;
    if ts == [] {
      NothingWritten(ts);
    } else {
      var w, rest := TokenText(ts[0]), Text(ts[1..]);
      TextWritten(ts[1..]);
      SpaceWritten(rest, ts[1..]);
      TokenWritten(ts[0], rest);
      var s := w + " " + rest;
      assert s[|w|..] == " " + rest;
      WrittenUnrolled(s, ts);
    }
  }

  lemma SpaceWritten(rest: string, ts: seq<Token>)
    requires Written(rest, ts)
    ensures Written(" " + rest, ts)
  {
    hide Written;
    assert (" " + rest)[1..] == rest;
    WrittenUnrolled(" " + rest, ts);
  }

  // ---- printed tokens can be spelled

  lemma WritableConcat(a: seq<Token>, b: seq<Token>)
    requires AllWritable(a) && AllWritable(b)
    ensures AllWritable(a + b)
  {
  }

  lemma WritableKeyword(kw: string)
    requires IsWord(kw)
    ensures AllWritable([Keyword(kw)])
  {
  }

  lemma Keywords()
    ensures IsWord("OR") && IsWord("AND") && IsWord("NOT") && IsWord("IN") && IsWord("IS") && IsWord("EMPTY")
    ensures IsWord("ORDER") && IsWord("BY") && IsWord("DESC") && IsWord("LIMIT")
  {
  }

  lemma {:induction false} ValueWritable(v: Value)
    requires ValueOk(v)
    ensures AllWritable(ValueTokens(v))
    ensures ValueTokens(v) != [] && ValueTokens(v)[0].kind in {Word, Str}
    decreases v, 0
  {
    if v.ValFunc? {
      ValuesWritable(v.args);
      WritableConcat([Token(Word, v.raw), OPEN], ValuesTokens(v.args));
      WritableConcat([Token(Word, v.raw), OPEN] + ValuesTokens(v.args), [CLOSE]);
    }
  }

  lemma {:induction false} ValuesWritable(vs: seq<Value>)
    requires ValuesOk(vs)
    ensures AllWritable(ValuesTokens(vs))
    decreases vs, 1
  {
    if vs != [] {
      ValueWritable(vs[0]);
      if |vs| > 1 {
        ValuesWritable(vs[1..]);
        WritableConcat(ValueTokens(vs[0]), [COMMA]);
        WritableConcat(ValueTokens(vs[0]) + [COMMA], ValuesTokens(vs[1..]));
      }
    }
  }

  lemma ComparisonWritable(field: string, op: string, value: Option<Value>, list: seq<Value>)
    requires ExprOk(Comparison(field, op, value, list))
    ensures AllWritable(ComparisonTokens(field, op, value, list))
  {
    Keywords();
    hide IsWord;
    if value.Some? {
      ValueWritable(value.value);
    } else {
      ValuesWritable(list);
    }
  }

  lemma WritableBetween(a: seq<Token>, kw: string, b: seq<Token>)
    requires AllWritable(a) && IsWord(kw) && AllWritable(b)
    ensures AllWritable(a + [Keyword(kw)] + b)
  {
  }

  lemma WritableWrapped(a: seq<Token>)
    requires AllWritable(a)
    ensures AllWritable([OPEN] + a + [CLOSE])
  {
  }

  lemma {:induction false} BareWritable(e: Expr)
    requires ExprOk(e)
    ensures AllWritable(Bare(e))
    decreases e, 0
  {
    Keywords();
    hide IsWord, AllWritable;
    match e {
      case Or(l, r) =>
        ExprWritable(l, 0);
        ExprWritable(r, 1);
        WritableBetween(ExprTokens(l, 0), "OR", ExprTokens(r, 1));
      case And(l, r) =>
        ExprWritable(l, 1);
        ExprWritable(r, 2);
        WritableBetween(ExprTokens(l, 1), "AND", ExprTokens(r, 2));
      case Not(x) =>
        ExprWritable(x, 2);
        WritableKeyword("NOT");
        WritableConcat([Keyword("NOT")], ExprTokens(x, 2));
      case Comparison(field, op, value, list) => ComparisonWritable(field, op, value, list);
    }
  }

  lemma {:induction false} ExprWritable(e: Expr, level: nat)
    requires ExprOk(e)
    ensures AllWritable(ExprTokens(e, level))
    decreases e, 1
  {
    BareWritable(e);
    hide AllWritable, Bare;
    WritableWrapped(Bare(e));
  }

  lemma {:induction false} OrderWritable(fs: seq<OrderField>)
    requires OrderOk(fs)
    ensures AllWritable(OrderTokens(fs))
  {
    if fs != [] {
      Keywords();
      hide IsWord;
      OrderWritable(fs[1..]);
    }
  }

  lemma {:induction false} DigitsAreWord(s: string)
    requires AllDigits(s)
    ensures forall i :: 0 <= i < |s| ==> IsWordByte(s[i])
    decreases |s|
  {
    if s != [] {
      DigitsAreWord(s[1..]);
      assert s == [s[0]] + s[1..];
    }
  }

  lemma NumberIsWord(n: nat)
    ensures IsWord(NumberText(n)) && IsDigit(NumberText(n)[0])
  {
    DecimalOfNumber(n);
    DigitsAreWord(NumberText(n));
  }

  lemma LimitWritable(n: int)
    ensures AllWritable(LimitTokens(n))
  {
    Keywords();
    if n > 0 {
      NumberIsWord(n);
    }
  }

  lemma QueryWritable(q: Query)
    requires QueryOk(q)
    ensures AllWritable(QueryTokens(q))
  {
    ExprWritable(q.where, 0);
    OrderWritable(q.orderBy);
    LimitWritable(q.limit);
    Keywords();
    hide IsWord;
  }

  // ---- printed tokens follow the grammar

  lemma {:induction false} PrintedValue(v: Value)
    ensures IsValue(ValueTokens(v), v)
    decreases v, 0
  {
    if v.ValFunc? {
      PrintedValues(v.args);
      hide IsArgs, ValuesTokens;
      var ts := ValueTokens(v);
      assert ts[1..] == [OPEN] + ValuesTokens(v.args) + [CLOSE];
      assert Inside(ts[1..]) == ValuesTokens(v.args);
    }
  }

  lemma {:induction false} PrintedValues(vs: seq<Value>)
    ensures IsArgs(ValuesTokens(vs), vs)
    decreases vs, 1
  {
    hide IsValue, IsArgs, ValueTokens;
    if vs == [] {
      NoArgs([]);
    } else if |vs| == 1 {
      PrintedValue(vs[0]);
      OneArg(ValueTokens(vs[0]), vs[0]);
      assert vs == [vs[0]];
    } else {
      PrintedValue(vs[0]);
      PrintedValues(vs[1..]);
      ArgsJoined(ValueTokens(vs[0]), vs[0], COMMA, ValuesTokens(vs[1..]), vs[1..]);
      assert vs == [vs[0]] + vs[1..];
    }
  }

  lemma BracketsRead(ts: seq<Token>)
    ensures Bracketed([OPEN] + ts + [CLOSE]) && Inside([OPEN] + ts + [CLOSE]) == ts
  {
  }

  lemma PrintedList(vs: seq<Value>)
    requires vs != []
    ensures IsList([OPEN] + ValuesTokens(vs) + [CLOSE], vs)
  {
    hide IsArgs, ValuesTokens;
    PrintedValues(vs);
    BracketsRead(ValuesTokens(vs));
  }

  lemma KeywordsRead()
    ensures forall kw: string :: IsKeyword(Keyword(kw), kw)
  {
  }

  lemma SymbolsAreNotWords()
    ensures !IsSymbol(OP_IN) && !IsSymbol(OP_NOT_IN) && !IsSymbol(OP_EMPTY) && !IsSymbol(OP_NOT_EMPTY)
    ensures OP_EMPTY != OP_IN && OP_EMPTY != OP_NOT_IN && OP_NOT_EMPTY != OP_IN && OP_NOT_EMPTY != OP_NOT_IN
  {
  }

  lemma PrintedScalar(field: string, op: string, v: Value)
    requires !IsKeyword(Token(Word, field), "NOT")
    ensures IsComparison(ComparisonTokens(field, op, Some(v), []), Comparison(field, op, Some(v), []))
  {
    hide IsKeyword, IsComparison, IsValue, ValueTokens;
    PrintedValue(v);
    ScalarWritten(Token(Word, field), Token(Op, op), ValueTokens(v), v);
    assert ComparisonTokens(field, op, Some(v), []) == [Token(Word, field), Token(Op, op)] + ValueTokens(v);
  }

  lemma PrintedIn(field: string, list: seq<Value>)
    requires !IsKeyword(Token(Word, field), "NOT") && list != []
    ensures IsComparison(ComparisonTokens(field, OP_IN, None, list), Comparison(field, OP_IN, None, list))
    ensures IsComparison(ComparisonTokens(field, OP_NOT_IN, None, list), Comparison(field, OP_NOT_IN, None, list))
  {
    hide IsKeyword, IsComparison, IsList, ValuesTokens;
    KeywordsRead();
    PrintedList(list);
    var f, body := Token(Word, field), [OPEN] + ValuesTokens(list) + [CLOSE];
    InWritten(f, Keyword("IN"), body, list);
    NotInWritten(f, Keyword("NOT"), Keyword("IN"), body, list);
    assert OP_IN != OP_NOT_IN;
    assert ComparisonTokens(field, OP_IN, None, list) == [f, Keyword("IN")] + body;
    assert ComparisonTokens(field, OP_NOT_IN, None, list) == [f, Keyword("NOT"), Keyword("IN")] + body;
  }

  lemma PrintedEmpty(field: string)
    requires !IsKeyword(Token(Word, field), "NOT")
    ensures IsComparison(ComparisonTokens(field, OP_EMPTY, None, []), Comparison(field, OP_EMPTY, None, []))
    ensures IsComparison(ComparisonTokens(field, OP_NOT_EMPTY, None, []), Comparison(field, OP_NOT_EMPTY, None, []))
  {
    hide IsKeyword, IsComparison, IsSymbol;
    KeywordsRead();
    SymbolsAreNotWords();
    EmptyWritten([Token(Word, field), Keyword("IS"), Keyword("EMPTY")]);
    EmptyWritten([Token(Word, field), Keyword("IS"), Keyword("NOT"), Keyword("EMPTY")]);
    assert ComparisonTokens(field, OP_EMPTY, None, []) == [Token(Word, field), Keyword("IS"), Keyword("EMPTY")];
    assert ComparisonTokens(field, OP_NOT_EMPTY, None, []) ==
      [Token(Word, field), Keyword("IS"), Keyword("NOT"), Keyword("EMPTY")];
  }

  lemma PrintedComparison(field: string, op: string, value: Option<Value>, list: seq<Value>)
    requires ExprOk(Comparison(field, op, value, list))
    ensures IsComparison(ComparisonTokens(field, op, value, list), Comparison(field, op, value, list))
  {
    assert !IsKeyword(Token(Word, field), "NOT");
    hide IsKeyword, EqualFold, IsWord, IsComparison, ComparisonTokens, ValueOk, ValuesOk, IsSymbol;
    if value.Some? {
      PrintedScalar(field, op, value.value);
    } else if list != [] {
      PrintedIn(field, list);
    } else {
      PrintedEmpty(field);
    }
  }

  /** Where the comparison of levels leads, for the termination of the proof. */
  function Rank(e: Expr, level: nat): nat {
    match Strength(e)
    case 0 => if level == 0 then 0 else if level == 1 then 2 else 1
    case 1 => if level == 0 then 1 else if level == 1 then 0 else 2
    case _ => if level == 0 then 2 else if level == 1 then 1 else 0
  }

  lemma {:induction false} PrintedOr(e: Expr)
    requires ExprOk(e)
    ensures IsOr(ExprTokens(e, 0), e)
    decreases e, Rank(e, 0)
  {
    KeywordsRead();
    hide IsKeyword, IsOr, IsAnd, IsNot;
    if e.Or? {
      PrintedOr(e.l);
      PrintedAnd(e.r);
      OrJoined(ExprTokens(e.l, 0), e.l, Keyword("OR"), ExprTokens(e.r, 1), e.r);
    } else {
      PrintedAnd(e);
      AndIsOr(ExprTokens(e, 1), e);
    }
  }

  lemma {:induction false} PrintedAnd(e: Expr)
    requires ExprOk(e)
    ensures IsAnd(ExprTokens(e, 1), e)
    decreases e, Rank(e, 1)
  {
    KeywordsRead();
    hide IsKeyword, IsOr, IsAnd, IsNot;
    if e.And? {
      PrintedAnd(e.l);
      PrintedNot(e.r);
      AndJoined(ExprTokens(e.l, 1), e.l, Keyword("AND"), ExprTokens(e.r, 2), e.r);
    } else {
      PrintedNot(e);
      NotIsAnd(ExprTokens(e, 2), e);
    }
  }

  lemma {:induction false} PrintedNot(e: Expr)
    requires ExprOk(e)
    ensures IsNot(ExprTokens(e, 2), e)
    decreases e, Rank(e, 2)
  {
    KeywordsRead();
    hide IsKeyword, IsOr, IsAnd, IsNot, IsComparison;
    match e {
      case Not(x) =>
        PrintedNot(x);
        NotJoined(Keyword("NOT"), ExprTokens(x, 2), x);
      case Comparison(field, op, value, list) =>
        PrintedComparison(field, op, value, list);
        assert ExprTokens(e, 2) == Bare(e);
        ComparisonIsNot(ExprTokens(e, 2), e);
      case _ =>
        PrintedOr(e);
        BracketsRead(ExprTokens(e, 0));
        assert ExprTokens(e, 2) == [OPEN] + ExprTokens(e, 0) + [CLOSE];
        GroupIsNot(ExprTokens(e, 2), e);
    }
  }

  lemma {:induction false} PrintedOrder(fs: seq<OrderField>)
    requires fs != []
    ensures IsOrder(OrderTokens(fs), fs)
    decreases |fs|
  {
    KeywordsRead();
    assert IsOrderItem(OrderFieldTokens(fs[0]), fs[0]);
    hide IsKeyword, IsOrder, IsOrderItem, OrderFieldTokens;
    if |fs| == 1 {
      OneItem(OrderFieldTokens(fs[0]), fs[0]);
      assert fs == [fs[0]];
    } else {
      PrintedOrder(fs[1..]);
      OrderJoined(OrderFieldTokens(fs[0]), fs[0], COMMA, OrderTokens(fs[1..]), fs[1..]);
      assert fs == [fs[0]] + fs[1..];
    }
  }

  lemma PrintedOrderBy(fs: seq<OrderField>)
    ensures IsOrderBy(OrderByTokens(fs), fs)
  {
    KeywordsRead();
    hide IsKeyword, IsOrder, OrderTokens;
    if fs != [] {
      PrintedOrder(fs);
      OrderNonempty(OrderTokens(fs), fs);
      assert OrderByTokens(fs)[2..] == OrderTokens(fs);
    }
  }

  lemma PrintedLimit(n: int)
    requires 0 <= n <= MAX_INT
    ensures IsLimit(LimitTokens(n), n)
  {
    KeywordsRead();
    hide IsKeyword, Atoi, NumberText;
    if n > 0 {
      AtoiOfNumber(n);
    }
  }

  lemma PrintedQuery(q: Query)
    requires QueryOk(q)
    ensures IsQuery(QueryTokens(q), q)
  {
    hide IsOr, IsOrderBy, IsLimit, ExprTokens, OrderByTokens, LimitTokens, ExprOk, OrderOk;
    PrintedOr(q.where);
    PrintedOrderBy(q.orderBy);
    PrintedLimit(q.limit);
    var ts, w, o := QueryTokens(q), ExprTokens(q.where, 0), OrderByTokens(q.orderBy);
    var i, j := |w|, |w| + |o|;
    assert ts[..i] == w && ts[i..j] == o && ts[j..] == LimitTokens(q.limit);
    assert QuerySplits(ts, q, i, j);
  }

  // ---- texts and queries

  /** Parsing accepts exactly the texts of the language, each as the query it is written
      for. */
  lemma ParseIff(s: string, q: Query)
    ensures Parse(s) == Ok(q) <==> IsText(s, q)
  {
    hide Tokens, Written, ParseQuery, IsQuery, Ended;
    TokensEnded(s);
    if Parse(s) == Ok(q) {
      var all := Tokens(s).value;
      EndIsLast(s);
      var ts := all[..|all| - 1];
      assert all == ts + [END];
      TokensIff(s, ts);
      ParsesIff(ts, q);
    }
    if IsText(s, q) {
      var ts :| Written(s, ts) && IsQuery(ts, q);
      TokensIff(s, ts);
      ParsesIff(ts, q);
    }
  }

  /** Parsing the text of a query gives the query back. */
  lemma ParseOfPrint(q: Query)
    requires QueryOk(q)
    ensures Parse(Print(q)) == Ok(q)
  {
    hide Written, IsQuery, QueryTokens, Parse;
    QueryWritable(q);
    TextWritten(QueryTokens(q));
    PrintedQuery(q);
    ParseIff(Print(q), q);
  }
}
