/** The parser accepts exactly the token lists of the grammar, each as the query it is
    written for. */
module HqlAccepted {
  import opened Wrappers
  import opened Numerals
  import opened HqlAst
  import opened HqlLexer
  import opened HqlParser
  import opened HqlGrammar

  lemma EndedFrom(ts: seq<Token>, k: nat)
    requires Ended(ts) && k < |ts|
    ensures Ended(ts[k..])
  {
    assert forall i :: 0 <= i < |ts| - k ==> ts[k..][i] == ts[k + i];
  }

  lemma Split(ts: seq<Token>, k: nat, rest: seq<Token>)
    requires k < |ts| && Ended(ts + rest) && rest != []
    ensures ts + rest == ts[..k] + (ts[k..] + rest)
    ensures (ts[k..] + rest)[0] == ts[k] && (ts[k..] + rest)[1..] == ts[k + 1..] + rest
    ensures Ended(ts[k..] + rest) && Ended(ts[k + 1..] + rest)
  {
    EndedFrom(ts + rest, k);
    EndedFrom(ts + rest, k + 1);
    assert (ts + rest)[k..] == ts[k..] + rest && (ts + rest)[k + 1..] == ts[k + 1..] + rest;
  }

  /** A bracketed part: what is inside, then the closing bracket. */
  lemma Opened(ts: seq<Token>, rest: seq<Token>)
    requires Bracketed(ts) && Ended(ts + rest) && rest != []
    ensures var close := [ts[|ts| - 1]] + rest;
      && (ts + rest)[1..] == Inside(ts) + close && Ended(Inside(ts) + close) && Ended(close)
      && close[0].kind == RParen && close[1..] == rest && Ended(rest)
  {
    var close := [ts[|ts| - 1]] + rest;
    assert (ts + rest)[1..] == Inside(ts) + close;
    EndedFrom(ts + rest, 1);
    EndedFrom(ts + rest, |ts| - 1);
    EndedFrom(ts + rest, |ts|);
    assert (ts + rest)[|ts| - 1..] == close && (ts + rest)[|ts|..] == rest;
  }

  // ---- whatever is written is parsed

  lemma {:induction false} ValueParses(ts: seq<Token>, v: Value, rest: seq<Token>)
    requires IsValue(ts, v) && Ended(ts + rest) && Ended(rest) && rest[0].kind != LParen
    ensures ParseValue(ts + rest) == Ok(Parsed(v, rest))
    decreases |ts|, 0
  {
    hide Ended, ParseArgs, IsArgs;
    if v.ValFunc? {
      var tail := ts[1..] + rest;
      assert (ts + rest)[1..] == tail && (ts + rest)[2..] == tail[1..];
      EndedFrom(ts + rest, 1);
      Opened(ts[1..], rest);
      ArgsParse(Inside(ts[1..]), v.args, [ts[|ts| - 1]] + rest);
    } else {
      assert (ts + rest)[1..] == rest;
    }
  }

  lemma ValueStarts(ts: seq<Token>, v: Value)
    requires IsValue(ts, v)
    ensures ts != [] && ts[0].kind in {Word, Str}
  {
    hide IsArgs;
  }

  lemma {:induction false} ArgsParse(ts: seq<Token>, vs: seq<Value>, rest: seq<Token>)
    requires IsArgs(ts, vs) && Ended(ts + rest) && Ended(rest) && rest[0].kind == RParen
    ensures ParseArgs(ts + rest) == Ok(Parsed(vs, rest))
    decreases |ts|, 1
  {
    hide Ended, ParseValue, ParseArgs, IsValue, IsArgs;
    if vs == [] {
      NoArgs(ts);
      assert ts + rest == rest;
      NoneParse(rest);
    } else {
      if |vs| == 1 && IsValue(ts, vs[0]) {
        ValueStarts(ts, vs[0]);
        ValueParses(ts, vs[0], rest);
        OneParses(ts + rest, vs[0], rest);
        assert [vs[0]] == vs;
      } else {
        SomeArgs(ts, vs);
        var k: nat :| ArgEnds(ts, vs, k);
        Split(ts, k, rest);
        ValueStarts(ts[..k], vs[0]);
        ValueParses(ts[..k], vs[0], ts[k..] + rest);
        ArgsParse(ts[k + 1..], vs[1..], rest);
        OneParses(ts + rest, vs[0], ts[k..] + rest);
        assert [vs[0]] + vs[1..] == vs;
      }
    }
  }

  lemma NoArgs(ts: seq<Token>)
    ensures IsArgs(ts, []) <==> ts == []
  {
  }

  /** The first value ends at the comma at `k`. */
  ghost predicate ArgEnds(ts: seq<Token>, vs: seq<Value>, k: nat)
    requires vs != []
  {
    0 < k < |ts| && ts[k].kind == Comma && IsValue(ts[..k], vs[0]) && IsArgs(ts[k + 1..], vs[1..])
  }

  lemma SomeArgs(ts: seq<Token>, vs: seq<Value>)
    requires vs != [] && IsArgs(ts, vs) && !(|vs| == 1 && IsValue(ts, vs[0]))
    ensures exists k :: ArgEnds(ts, vs, k)
  {
    var k: nat :| 0 < k < |ts| && ts[k].kind == Comma && IsValue(ts[..k], vs[0]) && IsArgs(ts[k + 1..], vs[1..]);
    assert ArgEnds(ts, vs, k);
  }

  lemma NoneParse(rest: seq<Token>)
    requires Ended(rest) && rest[0].kind == RParen
    ensures ParseArgs(rest) == Ok(Parsed([], rest))
  {
    hide Ended, ParseValue;
  }

  /** One turn of the loop over values. */
  lemma OneParses(all: seq<Token>, v: Value, rest: seq<Token>)
    requires Ended(all) && all[0].kind != RParen && ParseValue(all) == Ok(Parsed(v, rest)) && Ended(rest)
    ensures ParseArgs(all) ==
      if rest[0].kind == Comma then (Advance(rest); Appended([v], ParseArgs(rest[1..]))) else Ok(Parsed([v], rest))
  {
    hide Ended, ParseValue;
  }

  lemma ListParses(ts: seq<Token>, vs: seq<Value>, rest: seq<Token>)
    requires IsList(ts, vs) && Ended(ts + rest) && rest != []
    ensures ParseList(ts + rest) == Ok(Parsed(vs, rest))
  {
    hide Ended, ParseArgs, IsArgs;
    Opened(ts, rest);
    ArgsParse(Inside(ts), vs, [ts[|ts| - 1]] + rest);
  }

  /** The keywords of a comparison exclude each other. */
  lemma KeywordsApart(t: Token)
    ensures IsKeyword(t, "NOT") ==> !IsKeyword(t, "IN") && !IsKeyword(t, "EMPTY")
    ensures IsKeyword(t, "IS") ==> !IsKeyword(t, "IN") && !IsKeyword(t, "NOT")
    ensures IsKeyword(t, "OR") ==> !IsKeyword(t, "AND")
    ensures IsKeyword(t, "ORDER") || IsKeyword(t, "LIMIT") ==> !IsKeyword(t, "OR") && !IsKeyword(t, "AND")
    ensures IsKeyword(t, "LIMIT") ==> !IsKeyword(t, "ORDER") && !IsKeyword(t, "ASC") && !IsKeyword(t, "DESC")
    ensures IsKeyword(t, "DESC") ==> !IsKeyword(t, "ASC")
  {
    assert |Upper("NOT")| == 3 && |Upper("IN")| == 2 && |Upper("EMPTY")| == 5 && |Upper("AND")| == 3 && |Upper("OR")| == 2;
    assert |Upper("IS")| == 2 && Upper("IS")[1] == 'S' && Upper("IN")[1] == 'N';
    assert |Upper("ORDER")| == 5 && |Upper("LIMIT")| == 5 && Upper("ORDER")[0] == 'O' && Upper("LIMIT")[0] == 'L';
    assert |Upper("ASC")| == 3 && |Upper("DESC")| == 4;
  }

  lemma ComparisonParses(ts: seq<Token>, c: Expr, rest: seq<Token>)
    requires IsComparison(ts, c) && Ended(ts + rest) && Ended(rest) && rest[0].kind != LParen
    ensures ParseComparison(ts + rest) == Ok(Parsed(c, rest))
  {
    var all := ts + rest;
    KeywordsApart(ts[1]);
    KeywordsApart(ts[2]);
    EndedFrom(all, 1);
    EndedFrom(all, 2);
    assert all[2..] == ts[2..] + rest;
    hide Ended, EqualFold, ParseValue, ParseList, IsValue, IsList;
    if ts[1].kind == Op {
      ValueParses(ts[2..], c.value.value, rest);
    } else if IsKeyword(ts[1], "IN") {
      ListParses(ts[2..], c.list, rest);
    } else if IsKeyword(ts[1], "NOT") {
      EndedFrom(all, 3);
      assert all[3..] == ts[3..] + rest;
      ListParses(ts[3..], c.list, rest);
    } else if |ts| == 3 {
      assert all[2..][1..] == rest;
    } else {
      EndedFrom(all, 3);
      assert all[3..][1..] == rest;
    }
  }

  /** What may follow a condition: nothing that continues it. */
  ghost predicate Follows(t: Token) {
    t.kind != LParen && !IsKeyword(t, "AND") && !IsKeyword(t, "OR")
  }

  lemma {:induction false} OrParses(ts: seq<Token>, e: Expr, rest: seq<Token>)
    requires IsOr(ts, e) && Ended(ts + rest) && Ended(rest) && rest[0].kind != LParen && !IsKeyword(rest[0], "AND")
    ensures ParseOr(ts + rest) == OrTail(e, rest)
    decreases |ts|, 3
  {
    hide Ended, IsKeyword, ParseOr, ParseAnd, OrTail, AndTail, IsAnd;
    if IsAnd(ts, e) {
      AndParses(ts, e, rest);
      AndEnds(e, rest);
      OrBegins(ts + rest, e, rest);
    } else {
      var k: nat :| k < |ts| && IsKeyword(ts[k], "OR") && IsOr(ts[..k], e.l) && IsAnd(ts[k + 1..], e.r);
      Split(ts, k, rest);
      KeywordNoBracket(ts[k], "OR");
      KeywordsApart(ts[k]);
      OrParses(ts[..k], e.l, ts[k..] + rest);
      AndParses(ts[k + 1..], e.r, rest);
      AndEnds(e.r, rest);
      OrTurns(e.l, ts[k..] + rest, e.r, rest);
    }
  }

  lemma KeywordNoBracket(t: Token, kw: string)
    requires IsKeyword(t, kw)
    ensures t.kind == Word
  {
  }

  lemma OrBegins(all: seq<Token>, e: Expr, rest: seq<Token>)
    requires Ended(all) && ParseAnd(all) == Ok(Parsed(e, rest))
    ensures Ended(rest) && ParseOr(all) == OrTail(e, rest)
  {
    hide Ended, ParseAnd, OrTail;
  }

  lemma OrTurns(left: Expr, us: seq<Token>, right: Expr, rest: seq<Token>)
    requires Ended(us) && Ended(us[1..]) && IsKeyword(us[0], "OR") && ParseAnd(us[1..]) == Ok(Parsed(right, rest))
    ensures Ended(rest) && OrTail(left, us) == OrTail(Or(left, right), rest)
  {
    hide Ended, IsKeyword, ParseAnd;
  }

  lemma OrEnds(left: Expr, rest: seq<Token>)
    requires Ended(rest) && !IsKeyword(rest[0], "OR")
    ensures OrTail(left, rest) == Ok(Parsed(left, rest))
  {
    hide Ended, IsKeyword;
  }

  lemma {:induction false} AndParses(ts: seq<Token>, e: Expr, rest: seq<Token>)
    requires IsAnd(ts, e) && Ended(ts + rest) && Ended(rest) && rest[0].kind != LParen
    ensures ParseAnd(ts + rest) == AndTail(e, rest)
    decreases |ts|, 2
  {
    hide Ended, IsKeyword, ParseAnd, ParseNot, AndTail, IsNot;
    if IsNot(ts, e) {
      NotParses(ts, e, rest);
      AndBegins(ts + rest, e, rest);
    } else {
      var k: nat :| k < |ts| && IsKeyword(ts[k], "AND") && IsAnd(ts[..k], e.l) && IsNot(ts[k + 1..], e.r);
      Split(ts, k, rest);
      KeywordNoBracket(ts[k], "AND");
      AndParses(ts[..k], e.l, ts[k..] + rest);
      NotParses(ts[k + 1..], e.r, rest);
      AndTurns(e.l, ts[k..] + rest, e.r, rest);
    }
  }

  lemma AndBegins(all: seq<Token>, e: Expr, rest: seq<Token>)
    requires Ended(all) && ParseNot(all) == Ok(Parsed(e, rest))
    ensures Ended(rest) && ParseAnd(all) == AndTail(e, rest)
  {
    hide Ended, ParseNot, AndTail;
  }

  lemma AndTurns(left: Expr, us: seq<Token>, right: Expr, rest: seq<Token>)
    requires Ended(us) && Ended(us[1..]) && IsKeyword(us[0], "AND") && ParseNot(us[1..]) == Ok(Parsed(right, rest))
    ensures Ended(rest) && AndTail(left, us) == AndTail(And(left, right), rest)
  {
    hide Ended, IsKeyword, ParseNot;
  }

  lemma AndEnds(left: Expr, rest: seq<Token>)
    requires Ended(rest) && !IsKeyword(rest[0], "AND")
    ensures AndTail(left, rest) == Ok(Parsed(left, rest))
  {
    hide Ended, IsKeyword;
  }

  lemma {:induction false} NotParses(ts: seq<Token>, e: Expr, rest: seq<Token>)
    requires IsNot(ts, e) && Ended(ts + rest) && Ended(rest) && rest[0].kind != LParen
    ensures ParseNot(ts + rest) == Ok(Parsed(e, rest))
    decreases |ts|, 1
  {
    hide Ended, IsKeyword, ParseNot, ParseOr, OrTail, IsOr, IsComparison;
    if e.Not? && ts != [] && IsKeyword(ts[0], "NOT") && IsNot(ts[1..], e.x) {
      Split(ts, 0, rest);
      assert ts[0..] == ts;
      NotParses(ts[1..], e.x, rest);
      NotTurns(ts + rest, e.x, rest);
    } else if Bracketed(ts) && IsOr(Inside(ts), e) {
      var close := [ts[|ts| - 1]] + rest;
      Opened(ts, rest);
      CloseFollows(close[0]);
      OrParses(Inside(ts), e, close);
      OrEnds(e, close);
      GroupParses(ts + rest, e, close);
    } else {
      ComparisonParses(ts, e, rest);
      FieldStarts(ts, e);
      PlainNot(ts + rest);
    }
  }

  lemma CloseFollows(t: Token)
    requires t.kind == RParen
    ensures Follows(t)
  {
  }

  lemma FieldStarts(ts: seq<Token>, c: Expr)
    requires IsComparison(ts, c)
    ensures ts != [] && ts[0].kind == Word && !IsKeyword(ts[0], "NOT")
  {
    hide IsValue, IsList, EqualFold;
  }

  lemma NotTurns(all: seq<Token>, x: Expr, rest: seq<Token>)
    requires Ended(all) && IsKeyword(all[0], "NOT") && Ended(all[1..]) && ParseNot(all[1..]) == Ok(Parsed(x, rest))
    ensures ParseNot(all) == Ok(Parsed(Not(x), rest))
  {
    hide Ended, IsKeyword, ParsePrimary;
  }

  lemma GroupParses(all: seq<Token>, e: Expr, close: seq<Token>)
    requires Ended(all) && all[0].kind == LParen && Ended(all[1..]) && ParseOr(all[1..]) == Ok(Parsed(e, close))
    requires Ended(close) && close[0].kind == RParen
    ensures ParseNot(all) == Ok(Parsed(e, close[1..]))
  {
    hide Ended, EqualFold, ParseOr, ParseComparison;
  }

  lemma PlainNot(all: seq<Token>)
    requires Ended(all) && all[0].kind == Word && !IsKeyword(all[0], "NOT")
    ensures ParseNot(all) == ParseComparison(all)
  {
    hide Ended, EqualFold, ParseOr, ParseComparison;
  }

  lemma {:induction false} OrderParses(ts: seq<Token>, fs: seq<OrderField>, rest: seq<Token>)
    requires IsOrder(ts, fs) && Ended(ts + rest) && Ended(rest)
    requires rest[0].kind != Comma && !IsKeyword(rest[0], "ASC") && !IsKeyword(rest[0], "DESC")
    ensures ParseOrder(ts + rest) == Ok(Parsed(fs, rest))
    decreases |ts|
  {
    hide Ended, IsKeyword, ParseOrder, OrderTail, IsOrderItem;
    if |fs| == 1 && IsOrderItem(ts, fs[0]) {
      ItemParses(ts, fs[0], rest);
      ItemsEnd(fs[0], rest);
      assert [fs[0]] == fs;
    } else {
      var k: nat :| k < |ts| && ts[k].kind == Comma && IsOrderItem(ts[..k], fs[0]) && IsOrder(ts[k + 1..], fs[1..]);
      Split(ts, k, rest);
      CommaFollows(ts[k]);
      ItemParses(ts[..k], fs[0], ts[k..] + rest);
      OrderParses(ts[k + 1..], fs[1..], rest);
      ItemsTurn(fs[0], ts[k..] + rest);
      assert [fs[0]] + fs[1..] == fs;
    }
  }

  lemma CommaFollows(t: Token)
    requires t.kind == Comma || t.kind == EOF
    ensures !IsKeyword(t, "ASC") && !IsKeyword(t, "DESC") && !IsKeyword(t, "ORDER") && !IsKeyword(t, "LIMIT")
    ensures Follows(t)
  {
  }

  lemma ItemParses(ts: seq<Token>, f: OrderField, rest: seq<Token>)
    requires IsOrderItem(ts, f) && Ended(ts + rest) && Ended(rest) && !IsKeyword(rest[0], "ASC") && !IsKeyword(rest[0], "DESC")
    ensures ParseOrder(ts + rest) == OrderTail(f, rest)
  {
    var all := ts + rest;
    if |ts| == 2 {
      KeywordsApart(ts[1]);
      assert all[2..] == rest;
    } else {
      assert all[1..] == rest;
    }
    hide Ended, EqualFold, OrderTail;
  }

  lemma ItemsEnd(f: OrderField, rest: seq<Token>)
    requires Ended(rest) && rest[0].kind != Comma
    ensures OrderTail(f, rest) == Ok(Parsed([f], rest))
  {
    hide Ended;
  }

  lemma ItemsTurn(f: OrderField, us: seq<Token>)
    requires Ended(us) && us[0].kind == Comma && Ended(us[1..])
    ensures OrderTail(f, us) == AppendedFields([f], ParseOrder(us[1..]))
  {
    hide Ended, ParseOrder;
  }

  lemma OrderByParses(ts: seq<Token>, fs: seq<OrderField>, rest: seq<Token>)
    requires IsOrderBy(ts, fs) && Ended(ts + rest) && Ended(rest)
    requires rest[0].kind != Comma && !IsKeyword(rest[0], "ASC") && !IsKeyword(rest[0], "DESC") && !IsKeyword(rest[0], "ORDER")
    ensures ParseOrderBy(ts + rest) == Ok(Parsed(fs, rest))
  {
    hide Ended, EqualFold, ParseOrder, IsOrder;
    if fs == [] {
      assert ts + rest == rest;
    } else {
      EndedFrom(ts + rest, 2);
      assert (ts + rest)[2..] == ts[2..] + rest;
      OrderParses(ts[2..], fs, rest);
    }
  }

  lemma LimitParses(ts: seq<Token>, n: int, rest: seq<Token>)
    requires IsLimit(ts, n) && Ended(ts + rest) && Ended(rest) && !IsKeyword(rest[0], "LIMIT")
    ensures ParseLimitClause(ts + rest) == Ok(Parsed(n, rest))
  {
    hide Ended, EqualFold, Atoi;
    if ts == [] {
      assert ts + rest == rest;
    } else {
      assert (ts + rest)[1..][1..] == rest && (ts + rest)[1..][0] == ts[1];
      EndedFrom(ts + rest, 1);
    }
  }

  /** What the parts of a query after the condition begin with. */
  lemma LimitStarts(ts: seq<Token>, n: int)
    requires IsLimit(ts, n)
    ensures var t := (ts + [END])[0];
      && t.kind != LParen && t.kind != Comma && !IsKeyword(t, "AND") && !IsKeyword(t, "OR")
      && !IsKeyword(t, "ASC") && !IsKeyword(t, "DESC") && !IsKeyword(t, "ORDER")
  {
    CommaFollows(END);
    hide EqualFold;
    if ts != [] {
      KeywordsApart(ts[0]);
    }
  }

  lemma OrderByStarts(ts: seq<Token>, fs: seq<OrderField>, rest: seq<Token>)
    requires IsOrderBy(ts, fs) && rest != [] && Follows(rest[0])
    ensures Follows((ts + rest)[0])
  {
    hide EqualFold, IsOrder;
    if fs != [] {
      KeywordsApart(ts[0]);
    }
  }

  lemma QueryParses(ts: seq<Token>, q: Query)
    requires IsQuery(ts, q) && Ended(ts + [END])
    ensures ParseQuery(ts + [END]) == Ok(q)
  {
    hide Ended, IsKeyword, IsOr, IsOrderBy, IsLimit, ParseOr, ParseOrderBy, ParseLimitClause, OrTail;
    var i: nat, j: nat :| QuerySplits(ts, q, i, j);
    var w, o, l := ts[..i], ts[i..j], ts[j..] + [END];
    assert ts + [END] == w + (o + l);
    EndedFrom(ts + [END], i);
    EndedFrom(ts + [END], j);
    EndedFrom(ts + [END], |ts|);
    assert (ts + [END])[i..] == o + l && (ts + [END])[j..] == l && (ts + [END])[|ts|..] == [END];
    CommaFollows(END);
    LimitStarts(ts[j..], q.limit);
    LimitParses(ts[j..], q.limit, [END]);
    OrderByParses(o, q.orderBy, l);
    OrderByStarts(o, q.orderBy, l);
    OrParses(w, q.where, o + l);
    OrEnds(q.where, o + l);
    ConditionStarts(w, q.where);
    PartsParse(ts + [END], q, o + l, l);
  }

  lemma PartsParse(all: seq<Token>, q: Query, afterWhere: seq<Token>, afterOrder: seq<Token>)
    requires Ended(all) && all[0].kind != EOF && ParseOr(all) == Ok(Parsed(q.where, afterWhere))
    requires Ended(afterWhere) && ParseOrderBy(afterWhere) == Ok(Parsed(q.orderBy, afterOrder))
    requires Ended(afterOrder) && ParseLimitClause(afterOrder) == Ok(Parsed(q.limit, [END]))
    ensures ParseQuery(all) == Ok(q)
  {
    hide Ended, ParseOr, ParseOrderBy, ParseLimitClause;
  }

  lemma {:induction false} ConditionStarts(ts: seq<Token>, e: Expr)
    requires IsOr(ts, e)
    ensures ts != [] && ts[0].kind in {Word, LParen}
    decreases |ts|, 3
  {
    hide IsAnd, IsKeyword;
    if IsAnd(ts, e) {
      ConjunctionStarts(ts, e);
    } else {
      var k: nat :| k < |ts| && IsKeyword(ts[k], "OR") && IsOr(ts[..k], e.l) && IsAnd(ts[k + 1..], e.r);
      ConditionStarts(ts[..k], e.l);
    }
  }

  lemma {:induction false} ConjunctionStarts(ts: seq<Token>, e: Expr)
    requires IsAnd(ts, e)
    ensures ts != [] && ts[0].kind in {Word, LParen}
    decreases |ts|, 2
  {
    hide IsNot, IsKeyword;
    if IsNot(ts, e) {
      NegationStarts(ts, e);
    } else {
      var k: nat :| k < |ts| && IsKeyword(ts[k], "AND") && IsAnd(ts[..k], e.l) && IsNot(ts[k + 1..], e.r);
      ConjunctionStarts(ts[..k], e.l);
    }
  }

  lemma NegationStarts(ts: seq<Token>, e: Expr)
    requires IsNot(ts, e)
    ensures ts != [] && ts[0].kind in {Word, LParen}
  {
    hide IsOr, IsList, IsValue, EqualFold;
  }

  // ---- whatever is parsed was written

  /** `rest` is what remains of `ts`. */
  ghost predicate Remains(ts: seq<Token>, rest: seq<Token>) {
    |rest| <= |ts| && rest == ts[|ts| - |rest|..]
  }

  /** What was taken before `rest`. */
  function Taken(ts: seq<Token>, rest: seq<Token>): (r: seq<Token>)
    requires |rest| <= |ts|
    ensures |r| == |ts| - |rest|
  {
    ts[..|ts| - |rest|]
  }

  lemma TakenAll(ts: seq<Token>, mid: seq<Token>, rest: seq<Token>)
    requires Remains(ts, mid) && Remains(mid, rest)
    ensures Remains(ts, rest) && Taken(ts, rest) == Taken(ts, mid) + Taken(mid, rest)
  {
  }

  lemma TakenSome(ts: seq<Token>, n: nat, rest: seq<Token>)
    requires n <= |ts| && Remains(ts[n..], rest)
    ensures Remains(ts, rest) && Taken(ts, rest) == ts[..n] + Taken(ts[n..], rest)
  {
    TakenAll(ts, ts[n..], rest);
  }

  lemma {:induction false} ValueRead(ts: seq<Token>)
    requires Ended(ts) && ParseValue(ts).Ok?
    ensures var p := ParseValue(ts).value; Remains(ts, p.rest) && IsValue(Taken(ts, p.rest), p.value)
    decreases |ts|, 1
  {
    hide Ended, ParseArgs, IsArgs;
    var t, p := ts[0], ParseValue(ts).value;
    if t.kind == Word && ts[1].kind == LParen {
      Advance(ts);
      Advance(ts[1..]);
      ArgsRead(ts[2..]);
      var args := ParseArgs(ts[2..]).value;
      BracketsTaken(ts[1..], args.rest);
      TakenSome(ts, 1, p.rest);
      var taken := Taken(ts, p.rest);
      assert taken == [t] + Taken(ts[1..], p.rest);
      assert taken[1..] == Taken(ts[1..], p.rest);
      assert t == Token(Word, t.val);
    } else {
      assert Taken(ts, p.rest) == [t];
      assert t == Token(t.kind, t.val);
    }
  }

  /** An opening bracket, what was taken after it, and the closing bracket. */
  lemma BracketsTaken(ts: seq<Token>, rest: seq<Token>)
    requires |ts| > 1 && ts[0].kind == LParen && Remains(ts[1..], rest) && rest != [] && rest[0].kind == RParen
    ensures Remains(ts, rest[1..])
    ensures var taken := Taken(ts, rest[1..]); Bracketed(taken) && Inside(taken) == Taken(ts[1..], rest)
  {
  }

  lemma {:induction false} ArgsRead(ts: seq<Token>)
    requires Ended(ts) && ParseArgs(ts).Ok?
    ensures var p := ParseArgs(ts).value; Remains(ts, p.rest) && IsArgs(Taken(ts, p.rest), p.value)
    decreases |ts|, 2
  {
    hide Ended, ParseValue, ParseArgs, IsValue, IsArgs;
    if ts[0].kind == RParen {
      NoneParse(ts);
      NoArgs([]);
    } else {
      FirstOfArgs(ts);
      var v := ParseValue(ts).value;
      ValueRead(ts);
      var taken := Taken(ts, v.rest);
      OneParses(ts, v.value, v.rest);
      if v.rest[0].kind == Comma {
        Advance(v.rest);
        var us := v.rest[1..];
        var more := ParseArgs(us).value;
        ArgsRead(us);
        TakenSome(v.rest, 1, more.rest);
        TakenAll(ts, v.rest, more.rest);
        ArgsJoined(taken, v.value, v.rest[0], Taken(us, more.rest), more.value);
        assert Taken(ts, more.rest) == taken + [v.rest[0]] + Taken(us, more.rest);
      } else {
        OneArg(taken, v.value);
      }
    }
  }

  lemma FirstOfArgs(ts: seq<Token>)
    requires Ended(ts) && ts[0].kind != RParen && ParseArgs(ts).Ok?
    ensures ParseValue(ts).Ok?
  {
    hide ParseValue, Ended;
  }

  lemma {:induction false} OneArg(ts: seq<Token>, v: Value)
    requires IsValue(ts, v)
    ensures IsArgs(ts, [v])
  {
    hide IsValue;
  }

  lemma {:induction false} ArgsJoined(a: seq<Token>, v: Value, comma: Token, b: seq<Token>, vs: seq<Value>)
    requires IsValue(a, v) && comma.kind == Comma && IsArgs(b, vs)
    ensures IsArgs(a + [comma] + b, [v] + vs)
  {
    ValueStarts(a, v);
    var ts, all := a + [comma] + b, [v] + vs;
    hide IsValue;
    assert ts[|a|] == comma && ts[..|a|] == a && ts[|a| + 1..] == b && all[1..] == vs && all[0] == v;
  }

  lemma ListRead(ts: seq<Token>)
    requires Ended(ts) && ParseList(ts).Ok?
    ensures var p := ParseList(ts).value; Remains(ts, p.rest) && IsList(Taken(ts, p.rest), p.value)
  {
    hide Ended, ParseArgs, IsArgs;
    Advance(ts);
    ArgsRead(ts[1..]);
    BracketsTaken(ts, ParseArgs(ts[1..]).value.rest);
  }

  lemma ScalarWritten(field: Token, op: Token, ts: seq<Token>, v: Value)
    requires field.kind == Word && !IsKeyword(field, "NOT") && op.kind == Op && IsValue(ts, v)
    ensures IsComparison([field, op] + ts, Comparison(field.val, op.val, Some(v), []))
  {
    ValueStarts(ts, v);
    Prefix([field, op], 2, ts);
    assert [field, op][..2] == [field, op];
    assert field == Token(Word, field.val) && op == Token(Op, op.val);
    hide EqualFold, IsValue, IsList;
  }

  lemma InWritten(field: Token, t: Token, ts: seq<Token>, vs: seq<Value>)
    requires field.kind == Word && !IsKeyword(field, "NOT") && IsKeyword(t, "IN") && IsList(ts, vs)
    ensures IsComparison([field, t] + ts, Comparison(field.val, "in", None, vs))
  {
    assert |ts| >= 2;
    Prefix([field, t], 2, ts);
    assert [field, t][..2] == [field, t];
    assert field == Token(Word, field.val);
    hide EqualFold, IsValue, IsList;
  }

  lemma NotInWritten(field: Token, t: Token, u: Token, ts: seq<Token>, vs: seq<Value>)
    requires field.kind == Word && !IsKeyword(field, "NOT") && IsKeyword(t, "NOT") && IsKeyword(u, "IN") && IsList(ts, vs)
    ensures IsComparison([field, t, u] + ts, Comparison(field.val, "notin", None, vs))
  {
    Prefix([field, t, u], 3, ts);
    assert [field, t, u][..3] == [field, t, u];
    assert field == Token(Word, field.val);
    hide EqualFold, IsValue, IsList;
  }

  lemma EmptyWritten(ts: seq<Token>)
    requires |ts| >= 3 && ts[0].kind == Word && !IsKeyword(ts[0], "NOT") && IsKeyword(ts[1], "IS")
    ensures |ts| == 3 && IsKeyword(ts[2], "EMPTY") ==> IsComparison(ts, Comparison(ts[0].val, "empty", None, []))
    ensures |ts| == 4 && IsKeyword(ts[2], "NOT") && IsKeyword(ts[3], "EMPTY") ==>
      IsComparison(ts, Comparison(ts[0].val, "notempty", None, []))
  {
    assert ts[0] == Token(Word, ts[0].val);
    hide EqualFold, IsValue, IsList;
  }

  // The first token after the field says what is read.

  lemma ScalarStep(ts: seq<Token>)
    requires Ended(ts) && |ts| > 2 && Ended(ts[2..]) && ParseComparison(ts).Ok? && ts[1].kind == Op
    ensures ParseValue(ts[2..]).Ok?
    ensures var v := ParseValue(ts[2..]).value;
      ParseComparison(ts) == Ok(Parsed(Comparison(ts[0].val, ts[1].val, Some(v.value), []), v.rest))
  {
    hide Ended, EqualFold, ParseValue, ParseList, ParseEmpty;
  }

  lemma InStep(ts: seq<Token>)
    requires Ended(ts) && |ts| > 2 && Ended(ts[2..]) && ParseComparison(ts).Ok? && IsKeyword(ts[1], "IN")
    ensures ParseList(ts[2..]).Ok?
    ensures var l := ParseList(ts[2..]).value; ParseComparison(ts) == Ok(Parsed(Comparison(ts[0].val, "in", None, l.value), l.rest))
  {
    hide Ended, EqualFold, ParseValue, ParseList, ParseEmpty;
  }

  lemma NotInStep(ts: seq<Token>)
    requires Ended(ts) && |ts| > 2 && Ended(ts[2..]) && ParseComparison(ts).Ok? && IsKeyword(ts[1], "NOT")
    ensures IsKeyword(ts[2], "IN") && |ts| > 3 && Ended(ts[3..]) && ParseList(ts[3..]).Ok?
    ensures var l := ParseList(ts[3..]).value;
      ParseComparison(ts) == Ok(Parsed(Comparison(ts[0].val, "notin", None, l.value), l.rest))
  {
    KeywordsApart(ts[1]);
    hide Ended, EqualFold, ParseValue, ParseList, ParseEmpty;
    Advance(ts[2..]);
  }

  lemma IsStep(ts: seq<Token>)
    requires Ended(ts) && |ts| > 2 && Ended(ts[1..]) && Ended(ts[2..]) && ParseComparison(ts).Ok?
    requires ts[1].kind != Op && !IsKeyword(ts[1], "IN") && !IsKeyword(ts[1], "NOT")
    ensures IsKeyword(ts[1], "IS") && (IsKeyword(ts[2], "NOT") ==> |ts| > 3 && Ended(ts[3..]))
    ensures ParseComparison(ts) ==
      if IsKeyword(ts[2], "NOT") then ParseEmpty(ts[0].val, OP_NOT_EMPTY, ts[3..])
      else ParseEmpty(ts[0].val, OP_EMPTY, ts[2..])
  {
    hide Ended, EqualFold, ParseValue, ParseList, ParseEmpty;
    if IsKeyword(ts[2], "NOT") {
      Advance(ts[2..]);
    }
  }

  lemma EmptyComparisonRead(ts: seq<Token>)
    requires Ended(ts) && |ts| > 1 && Ended(ts[1..]) && ParseComparison(ts).Ok? && ts[0].kind == Word && !IsKeyword(ts[0], "NOT")
    requires ts[1].kind == Word && !IsKeyword(ts[1], "IN") && !IsKeyword(ts[1], "NOT")
    ensures var p := ParseComparison(ts).value; Remains(ts, p.rest) && IsComparison(Taken(ts, p.rest), p.value)
  {
    hide Ended, IsKeyword, ParseComparison, IsComparison, ParseEmpty;
    Advance(ts[1..]);
    IsStep(ts);
    var p := ParseComparison(ts).value;
    if IsKeyword(ts[2], "NOT") {
      EmptyRead(ts[0].val, OP_NOT_EMPTY, ts[3..]);
      TakenSome(ts, 3, p.rest);
      Prefix(ts, 3, [ts[3]]);
    } else {
      EmptyRead(ts[0].val, OP_EMPTY, ts[2..]);
      TakenSome(ts, 2, p.rest);
      Prefix(ts, 2, [ts[2]]);
    }
    EmptyWritten(Taken(ts, p.rest));
  }

  lemma ComparisonRead(ts: seq<Token>)
    requires Ended(ts) && ParseComparison(ts).Ok? && !IsKeyword(ts[0], "NOT")
    ensures var p := ParseComparison(ts).value; Remains(ts, p.rest) && IsComparison(Taken(ts, p.rest), p.value)
  {
    hide Ended, IsKeyword, ParseComparison, ParseValue, ParseList, IsValue, IsList, IsComparison, Taken;
    FieldAndMore(ts);
    var p := ParseComparison(ts).value;
    if ts[1].kind == Op {
      ScalarStep(ts);
      ValueRead(ts[2..]);
      TakenSome(ts, 2, p.rest);
      ScalarWritten(ts[0], ts[1], Taken(ts[2..], p.rest), ParseValue(ts[2..]).value.value);
      assert ts[..2] == [ts[0], ts[1]];
    } else if IsKeyword(ts[1], "IN") {
      InStep(ts);
      ListRead(ts[2..]);
      TakenSome(ts, 2, p.rest);
      InWritten(ts[0], ts[1], Taken(ts[2..], p.rest), p.value.list);
      assert ts[..2] == [ts[0], ts[1]];
    } else if IsKeyword(ts[1], "NOT") {
      NotInStep(ts);
      ListRead(ts[3..]);
      TakenSome(ts, 3, p.rest);
      NotInWritten(ts[0], ts[1], ts[2], Taken(ts[3..], p.rest), p.value.list);
      assert ts[..3] == [ts[0], ts[1], ts[2]];
    } else {
      EmptyComparisonRead(ts);
    }
  }

  lemma FieldAndMore(ts: seq<Token>)
    requires Ended(ts) && ParseComparison(ts).Ok?
    ensures |ts| > 2 && ts[0].kind == Word && ts[1].kind in {Op, Word} && Ended(ts[1..]) && Ended(ts[2..])
  {
    hide Ended, EqualFold, ParseValue, ParseList, ParseEmpty;
    Advance(ts);
    Advance(ts[1..]);
  }

  lemma Prefix(ts: seq<Token>, n: nat, more: seq<Token>)
    requires n <= |ts|
    ensures var all := ts[..n] + more; all[n..] == more && forall i :: 0 <= i < n ==> all[i] == ts[i]
  {
  }

  lemma EmptyRead(field: string, op: string, ts: seq<Token>)
    requires Ended(ts) && ParseEmpty(field, op, ts).Ok?
    ensures var p := ParseEmpty(field, op, ts).value;
      && Remains(ts, p.rest) && Taken(ts, p.rest) == [ts[0]] && IsKeyword(ts[0], "EMPTY")
      && p.value == Comparison(field, op, None, [])
  {
    hide EqualFold, Ended;
  }

  lemma {:induction false} OrRead(ts: seq<Token>)
    requires Ended(ts) && ParseOr(ts).Ok?
    ensures var p := ParseOr(ts).value; Remains(ts, p.rest) && IsOr(Taken(ts, p.rest), p.value)
    decreases |ts|, 4
  {
    hide Ended, IsKeyword, ParseOr, ParseAnd, OrTail, IsOr, IsAnd;
    var left := FirstOfOr(ts);
    AndRead(ts);
    AndIsOr(Taken(ts, left.rest), left.value);
    OrTailRead(Taken(ts, left.rest), left.value, left.rest);
    TakenAll(ts, left.rest, ParseOr(ts).value.rest);
  }

  lemma FirstOfOr(ts: seq<Token>) returns (left: Parsed<Expr>)
    requires Ended(ts) && ParseOr(ts).Ok?
    ensures ParseAnd(ts) == Ok(left) && Ended(left.rest) && |left.rest| < |ts| && ParseOr(ts) == OrTail(left.value, left.rest)
  {
    hide Ended, ParseAnd, OrTail;
    left := ParseAnd(ts).value;
  }

  lemma AndIsOr(ts: seq<Token>, e: Expr)
    requires IsAnd(ts, e)
    ensures IsOr(ts, e)
  {
    hide IsAnd;
  }

  lemma {:induction false} OrJoined(a: seq<Token>, l: Expr, t: Token, b: seq<Token>, r: Expr)
    requires IsOr(a, l) && IsKeyword(t, "OR") && IsAnd(b, r)
    ensures IsOr(a + [t] + b, Or(l, r))
  {
    hide IsAnd, IsKeyword;
    var ts := a + [t] + b;
    assert ts[|a|] == t && ts[..|a|] == a && ts[|a| + 1..] == b;
  }

  lemma {:induction false} OrTailRead(done: seq<Token>, left: Expr, ts: seq<Token>)
    requires Ended(ts) && OrTail(left, ts).Ok? && IsOr(done, left)
    ensures var p := OrTail(left, ts).value; Remains(ts, p.rest) && IsOr(done + Taken(ts, p.rest), p.value)
    decreases |ts|, 5
  {
    hide Ended, IsKeyword, ParseAnd, OrTail, IsOr, IsAnd;
    var p := OrTail(left, ts).value;
    if IsKeyword(ts[0], "OR") {
      KeywordNoBracket(ts[0], "OR");
      Advance(ts);
      var us := ts[1..];
      var right := NextOfOr(left, ts);
      AndRead(us);
      var b := Taken(us, right.rest);
      OrJoined(done, left, ts[0], b, right.value);
      OrTailRead(done + [ts[0]] + b, Or(left, right.value), right.rest);
      TakenAll(us, right.rest, p.rest);
      TakenSome(ts, 1, p.rest);
      assert done + Taken(ts, p.rest) == done + [ts[0]] + b + Taken(right.rest, p.rest);
    } else {
      OrEnds(left, ts);
      assert done + Taken(ts, ts) == done;
    }
  }

  lemma NextOfOr(left: Expr, ts: seq<Token>) returns (right: Parsed<Expr>)
    requires Ended(ts) && Ended(ts[1..]) && IsKeyword(ts[0], "OR") && OrTail(left, ts).Ok?
    ensures ParseAnd(ts[1..]) == Ok(right) && Ended(right.rest) && |right.rest| < |ts[1..]|
    ensures OrTail(left, ts) == OrTail(Or(left, right.value), right.rest)
  {
    hide Ended, IsKeyword, ParseAnd;
    right := ParseAnd(ts[1..]).value;
  }

  lemma {:induction false} AndRead(ts: seq<Token>)
    requires Ended(ts) && ParseAnd(ts).Ok?
    ensures var p := ParseAnd(ts).value; Remains(ts, p.rest) && IsAnd(Taken(ts, p.rest), p.value)
    decreases |ts|, 2
  {
    hide Ended, IsKeyword, ParseAnd, ParseNot, AndTail, IsAnd, IsNot;
    var left := FirstOfAnd(ts);
    NotRead(ts);
    NotIsAnd(Taken(ts, left.rest), left.value);
    AndTailRead(Taken(ts, left.rest), left.value, left.rest);
    TakenAll(ts, left.rest, ParseAnd(ts).value.rest);
  }

  lemma FirstOfAnd(ts: seq<Token>) returns (left: Parsed<Expr>)
    requires Ended(ts) && ParseAnd(ts).Ok?
    ensures ParseNot(ts) == Ok(left) && Ended(left.rest) && |left.rest| < |ts| && ParseAnd(ts) == AndTail(left.value, left.rest)
  {
    hide Ended, ParseNot, AndTail;
    left := ParseNot(ts).value;
  }

  lemma NotIsAnd(ts: seq<Token>, e: Expr)
    requires IsNot(ts, e)
    ensures IsAnd(ts, e)
  {
    hide IsNot;
  }

  lemma {:induction false} AndJoined(a: seq<Token>, l: Expr, t: Token, b: seq<Token>, r: Expr)
    requires IsAnd(a, l) && IsKeyword(t, "AND") && IsNot(b, r)
    ensures IsAnd(a + [t] + b, And(l, r))
  {
    hide IsNot, IsKeyword;
    var ts := a + [t] + b;
    assert ts[|a|] == t && ts[..|a|] == a && ts[|a| + 1..] == b;
  }

  lemma {:induction false} AndTailRead(done: seq<Token>, left: Expr, ts: seq<Token>)
    requires Ended(ts) && AndTail(left, ts).Ok? && IsAnd(done, left)
    ensures var p := AndTail(left, ts).value; Remains(ts, p.rest) && IsAnd(done + Taken(ts, p.rest), p.value)
    decreases |ts|, 3
  {
    hide Ended, IsKeyword, ParseNot, AndTail, IsAnd, IsNot;
    var p := AndTail(left, ts).value;
    if IsKeyword(ts[0], "AND") {
      KeywordNoBracket(ts[0], "AND");
      Advance(ts);
      var us := ts[1..];
      var right := NextOfAnd(left, ts);
      NotRead(us);
      var b := Taken(us, right.rest);
      AndJoined(done, left, ts[0], b, right.value);
      AndTailRead(done + [ts[0]] + b, And(left, right.value), right.rest);
      TakenAll(us, right.rest, p.rest);
      TakenSome(ts, 1, p.rest);
      assert done + Taken(ts, p.rest) == done + [ts[0]] + b + Taken(right.rest, p.rest);
    } else {
      AndEnds(left, ts);
      assert done + Taken(ts, ts) == done;
    }
  }

  lemma NextOfAnd(left: Expr, ts: seq<Token>) returns (right: Parsed<Expr>)
    requires Ended(ts) && Ended(ts[1..]) && IsKeyword(ts[0], "AND") && AndTail(left, ts).Ok?
    ensures ParseNot(ts[1..]) == Ok(right) && Ended(right.rest) && |right.rest| < |ts[1..]|
    ensures AndTail(left, ts) == AndTail(And(left, right.value), right.rest)
  {
    hide Ended, IsKeyword, ParseNot;
    right := ParseNot(ts[1..]).value;
  }

  lemma {:induction false} NotRead(ts: seq<Token>)
    requires Ended(ts) && ParseNot(ts).Ok?
    ensures var p := ParseNot(ts).value; Remains(ts, p.rest) && IsNot(Taken(ts, p.rest), p.value)
    decreases |ts|, 1
  {
    hide Ended, IsKeyword, ParseNot, ParseOr, ParseComparison, IsNot, IsOr, IsComparison;
    var p := ParseNot(ts).value;
    if IsKeyword(ts[0], "NOT") {
      KeywordNoBracket(ts[0], "NOT");
      Advance(ts);
      var x := AfterNot(ts);
      NotRead(ts[1..]);
      TakenSome(ts, 1, x.rest);
      NotJoined(ts[0], Taken(ts[1..], x.rest), x.value);
      assert ts[..1] == [ts[0]];
    } else if ts[0].kind == LParen {
      Advance(ts);
      var x := AfterOpen(ts);
      OrRead(ts[1..]);
      BracketsTaken(ts, x.rest);
      GroupIsNot(Taken(ts, p.rest), x.value);
    } else {
      NoWordNoCondition(ts);
      PlainNot(ts);
      ComparisonRead(ts);
      ComparisonIsNot(Taken(ts, p.rest), p.value);
    }
  }

  lemma AfterNot(ts: seq<Token>) returns (x: Parsed<Expr>)
    requires Ended(ts) && Ended(ts[1..]) && IsKeyword(ts[0], "NOT") && ParseNot(ts).Ok?
    ensures ParseNot(ts[1..]) == Ok(x) && ParseNot(ts) == Ok(Parsed(Not(x.value), x.rest))
  {
    hide Ended, IsKeyword, ParsePrimary;
    x := ParseNot(ts[1..]).value;
  }

  lemma AfterOpen(ts: seq<Token>) returns (x: Parsed<Expr>)
    requires Ended(ts) && Ended(ts[1..]) && ts[0].kind == LParen && ParseNot(ts).Ok?
    ensures ParseOr(ts[1..]) == Ok(x) && x.rest != [] && x.rest[0].kind == RParen
    ensures ParseNot(ts) == Ok(Parsed(x.value, x.rest[1..]))
  {
    hide Ended, EqualFold, ParseOr, ParseComparison;
    x := ParseOr(ts[1..]).value;
  }

  lemma NoWordNoCondition(ts: seq<Token>)
    requires Ended(ts) && ts[0].kind != LParen && !IsKeyword(ts[0], "NOT") && ParseNot(ts).Ok?
    ensures ts[0].kind == Word
  {
    hide Ended, EqualFold, ParseOr, ParseValue, ParseList, ParseEmpty;
  }

  lemma {:induction false} NotJoined(t: Token, ts: seq<Token>, x: Expr)
    requires IsKeyword(t, "NOT") && IsNot(ts, x)
    ensures IsNot([t] + ts, Not(x))
  {
    hide IsKeyword, IsOr, IsComparison;
    assert ([t] + ts)[1..] == ts;
  }

  lemma GroupIsNot(ts: seq<Token>, e: Expr)
    requires Bracketed(ts) && IsOr(Inside(ts), e)
    ensures IsNot(ts, e)
  {
    hide IsKeyword, IsOr, IsComparison;
  }

  lemma ComparisonIsNot(ts: seq<Token>, e: Expr)
    requires IsComparison(ts, e)
    ensures IsNot(ts, e)
  {
    hide IsKeyword, IsOr, IsComparison;
  }

  lemma {:induction false} OrderRead(ts: seq<Token>)
    requires Ended(ts) && ParseOrder(ts).Ok?
    ensures var p := ParseOrder(ts).value; Remains(ts, p.rest) && IsOrder(Taken(ts, p.rest), p.value)
    decreases |ts|
  {
    hide Ended, IsKeyword, ParseOrder, IsOrder, IsOrderItem, OrderTail;
    var f, us := ItemRead(ts);
    var item := Taken(ts, us);
    if us[0].kind == Comma {
      Advance(us);
      ItemsTurn(f, us);
      var more := ParseOrder(us[1..]).value;
      OrderRead(us[1..]);
      TakenSome(us, 1, more.rest);
      TakenAll(ts, us, more.rest);
      OrderJoined(item, f, us[0], Taken(us[1..], more.rest), more.value);
      assert Taken(ts, more.rest) == item + [us[0]] + Taken(us[1..], more.rest);
    } else {
      ItemsEnd(f, us);
      OneItem(item, f);
    }
  }

  /** The first item, and the tokens after it. */
  lemma ItemRead(ts: seq<Token>) returns (f: OrderField, us: seq<Token>)
    requires Ended(ts) && ParseOrder(ts).Ok?
    ensures Ended(us) && |us| < |ts| && Remains(ts, us) && IsOrderItem(Taken(ts, us), f) && ParseOrder(ts) == OrderTail(f, us)
  {
    Advance(ts);
    KeywordsApart(ts[1]);
    hide Ended, EqualFold, OrderTail;
    assert ts[0] == Token(Word, ts[0].val);
    f := OrderField(ts[0].val, IsKeyword(ts[1], "DESC"));
    if IsKeyword(ts[1], "ASC") || IsKeyword(ts[1], "DESC") {
      Advance(ts[1..]);
      us := ts[2..];
    } else {
      us := ts[1..];
    }
  }

  lemma {:induction false} OneItem(ts: seq<Token>, f: OrderField)
    requires IsOrderItem(ts, f)
    ensures IsOrder(ts, [f])
  {
    hide IsOrderItem;
  }

  lemma {:induction false} OrderJoined(a: seq<Token>, f: OrderField, comma: Token, b: seq<Token>, fs: seq<OrderField>)
    requires IsOrderItem(a, f) && comma.kind == Comma && IsOrder(b, fs)
    ensures IsOrder(a + [comma] + b, [f] + fs)
  {
    hide IsOrderItem;
    var ts, all := a + [comma] + b, [f] + fs;
    assert ts[|a|] == comma && ts[..|a|] == a && ts[|a| + 1..] == b && all[1..] == fs && all[0] == f;
  }

  lemma OrderByRead(ts: seq<Token>)
    requires Ended(ts) && ParseOrderBy(ts).Ok?
    ensures var p := ParseOrderBy(ts).value; Remains(ts, p.rest) && IsOrderBy(Taken(ts, p.rest), p.value)
  {
    var p := ParseOrderBy(ts).value;
    if IsKeyword(ts[0], "ORDER") {
      Advance(ts);
      Advance(ts[1..]);
      hide Ended, EqualFold, ParseOrder, IsOrder;
      OrderRead(ts[2..]);
      OrderNonempty(Taken(ts[2..], p.rest), p.value);
      TakenSome(ts, 2, p.rest);
      Prefix(ts, 2, Taken(ts[2..], p.rest));
    }
  }

  lemma OrderNonempty(ts: seq<Token>, fs: seq<OrderField>)
    requires IsOrder(ts, fs)
    ensures ts != [] && fs != []
  {
  }

  lemma LimitRead(ts: seq<Token>)
    requires Ended(ts) && ParseLimitClause(ts).Ok?
    ensures var p := ParseLimitClause(ts).value; Remains(ts, p.rest) && IsLimit(Taken(ts, p.rest), p.value)
  {
    if IsKeyword(ts[0], "LIMIT") {
      Advance(ts);
      Advance(ts[1..]);
      hide Ended, EqualFold, Atoi;
      assert ParseLimitClause(ts).value.rest == ts[2..];
    }
  }

  lemma QueryRead(ts: seq<Token>)
    requires Ended(ts + [END]) && ParseQuery(ts + [END]).Ok?
    ensures IsQuery(ts, ParseQuery(ts + [END]).value)
  {
    hide Ended, IsKeyword, IsOr, IsOrderBy, IsLimit, ParseOr, ParseOrderBy, ParseLimitClause;
    var all := ts + [END];
    var q := ParseQuery(all).value;
    var w, o, l := ParseOr(all).value, ParseOrderBy(ParseOr(all).value.rest).value,
      ParseLimitClause(ParseOrderBy(ParseOr(all).value.rest).value.rest).value;
    OrRead(all);
    OrderByRead(w.rest);
    LimitRead(o.rest);
    EndRemains(o.rest, l.rest, all);
    TakenAll(all, w.rest, o.rest);
    TakenAll(all, o.rest, l.rest);
    var i, j := |all| - |w.rest|, |all| - |o.rest|;
    assert ts == Taken(all, l.rest);
    assert ts[..i] == Taken(all, w.rest) && ts[i..j] == Taken(w.rest, o.rest) && ts[j..] == Taken(o.rest, l.rest);
    assert QuerySplits(ts, q, i, j);
  }

  /** The first token of kind EOF is the last. */
  lemma EndRemains(ts: seq<Token>, rest: seq<Token>, all: seq<Token>)
    requires Ended(all) && Remains(all, ts) && Remains(ts, rest) && rest != [] && rest[0].kind == EOF
    ensures |rest| == 1
  {
    assert rest[0] == all[|all| - |rest|];
  }

  /** The grammar is what the parser accepts, and it gives each token list one query. */
  lemma ParsesIff(ts: seq<Token>, q: Query)
    requires Ended(ts + [END])
    ensures ParseQuery(ts + [END]) == Ok(q) <==> IsQuery(ts, q)
  {
    hide Ended, ParseQuery, IsQuery;
    if IsQuery(ts, q) {
      QueryParses(ts, q);
    }
    if ParseQuery(ts + [END]).Ok? {
      QueryRead(ts);
    }
  }
}
