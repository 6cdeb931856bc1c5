/** The parser yields exactly the queries that have a text. */
module HqlImage {
  import opened Wrappers
  import opened Numerals
  import opened HqlAst
  import opened HqlLexer
  import opened HqlParser
  import opened HqlGrammar
  import opened HqlAccepted
  import opened HqlScanned
  import opened HqlPrinter
  import opened HqlRoundTrip

  lemma SpelledIsWritable(w: string, t: Token)
    requires Spells(w, t)
    ensures Writable(t)
  {
  }

  lemma {:induction false} WrittenIsWritable(s: string, ts: seq<Token>)
    requires Written(s, ts)
    ensures AllWritable(ts)
    decreases |s|
  {
    hide Written, Writable, Spells, RunsOn;
    if s == [] {
      NothingWritten(ts);
    } else {
      WrittenUnrolled(s, ts);
      if IsSpace(s[0]) && Written(s[1..], ts) {
        WrittenIsWritable(s[1..], ts);
      } else {
        var n: nat :| Starts(s, ts[0], n) && Written(s[n..], ts[1..]);
        SpelledIsWritable(s[..n], ts[0]);
        WrittenIsWritable(s[n..], ts[1..]);
        assert ts == [ts[0]] + ts[1..];
      }
    }
  }

  lemma WritablePart(ts: seq<Token>, i: nat, j: nat)
    requires AllWritable(ts) && i <= j <= |ts|
    ensures AllWritable(ts[i..j]) && AllWritable(ts[i..]) && AllWritable(ts[..j])
  {
  }

  lemma WritableWord(ts: seq<Token>, i: nat)
    requires AllWritable(ts) && i < |ts|
    ensures ts[i].kind == Word ==> IsWord(ts[i].val)
    ensures ts[i].kind == Op ==> IsSymbol(ts[i].val)
  {
    assert Writable(ts[i]);
  }

  lemma {:induction false} ValueImage(ts: seq<Token>, v: Value)
    requires IsValue(ts, v) && AllWritable(ts)
    ensures ValueOk(v)
    decreases |ts|, 0
  {
    hide AllWritable, IsWord, IsArgs;
    WritableWord(ts, 0);
    if v.ValFunc? {
      WritablePart(ts, 2, |ts| - 1);
      assert Inside(ts[1..]) == ts[2..|ts| - 1];
      ArgsImage(Inside(ts[1..]), v.args);
    }
  }

  lemma {:induction false} ArgsImage(ts: seq<Token>, vs: seq<Value>)
    requires IsArgs(ts, vs) && AllWritable(ts)
    ensures ValuesOk(vs)
    decreases |ts|, 1
  {
    hide AllWritable, ValueOk, IsValue, IsArgs;
    if vs != [] {
      if |vs| == 1 && IsValue(ts, vs[0]) {
        ValueImage(ts, vs[0]);
      } else {
        SomeArgs(ts, vs);
        var k: nat :| ArgEnds(ts, vs, k);
        WritablePart(ts, 0, k);
        WritablePart(ts, k + 1, |ts|);
        ValueImage(ts[..k], vs[0]);
        ArgsImage(ts[k + 1..], vs[1..]);
      }
    }
  }

  lemma ListImage(ts: seq<Token>, vs: seq<Value>)
    requires IsList(ts, vs) && AllWritable(ts)
    ensures ValuesOk(vs) && vs != []
  {
    hide AllWritable, ValuesOk, IsArgs;
    WritablePart(ts, 1, |ts| - 1);
    ArgsImage(Inside(ts), vs);
  }

  lemma ComparisonImage(ts: seq<Token>, c: Expr)
    requires IsComparison(ts, c) && AllWritable(ts)
    ensures ExprOk(c)
  {
    SymbolsAreNotWords();
    WritableWord(ts, 0);
    WritableWord(ts, 1);
    WritablePart(ts, 2, |ts|);
    WritablePart(ts, 3, |ts|);
    assert IsKeyword(ts[0], "NOT") <==> EqualFold(c.field, "NOT");
    hide AllWritable, EqualFold, IsWord, IsSymbol, IsValue, IsList, ValueOk, ValuesOk;
    if c.value.Some? {
      ValueImage(ts[2..], c.value.value);
    } else if c.op == OP_IN {
      ListImage(ts[2..], c.list);
    } else if c.op == OP_NOT_IN {
      ListImage(ts[3..], c.list);
    }
  }

  lemma {:induction false} OrImage(ts: seq<Token>, e: Expr)
    requires IsOr(ts, e) && AllWritable(ts)
    ensures ExprOk(e)
    decreases |ts|, 3
  {
    hide AllWritable, IsKeyword, IsAnd;
    if IsAnd(ts, e) {
      AndImage(ts, e);
    } else {
      var k: nat :| k < |ts| && IsKeyword(ts[k], "OR") && IsOr(ts[..k], e.l) && IsAnd(ts[k + 1..], e.r);
      WritablePart(ts, 0, k);
      WritablePart(ts, k + 1, |ts|);
      OrImage(ts[..k], e.l);
      AndImage(ts[k + 1..], e.r);
    }
  }

  lemma {:induction false} AndImage(ts: seq<Token>, e: Expr)
    requires IsAnd(ts, e) && AllWritable(ts)
    ensures ExprOk(e)
    decreases |ts|, 2
  {
    hide AllWritable, IsKeyword, IsNot;
    if IsNot(ts, e) {
      NotImage(ts, e);
    } else {
      var k: nat :| k < |ts| && IsKeyword(ts[k], "AND") && IsAnd(ts[..k], e.l) && IsNot(ts[k + 1..], e.r);
      WritablePart(ts, 0, k);
      WritablePart(ts, k + 1, |ts|);
      AndImage(ts[..k], e.l);
      NotImage(ts[k + 1..], e.r);
    }
  }

  lemma {:induction false} NotImage(ts: seq<Token>, e: Expr)
    requires IsNot(ts, e) && AllWritable(ts)
    ensures ExprOk(e)
    decreases |ts|, 1
  {
    hide AllWritable, IsKeyword, IsOr, IsComparison;
    if e.Not? && ts != [] && IsKeyword(ts[0], "NOT") && IsNot(ts[1..], e.x) {
      WritablePart(ts, 1, |ts|);
      NotImage(ts[1..], e.x);
    } else if Bracketed(ts) && IsOr(Inside(ts), e) {
      WritablePart(ts, 1, |ts| - 1);
      OrImage(Inside(ts), e);
    } else {
      ComparisonImage(ts, e);
    }
  }

  lemma {:induction false} OrderImage(ts: seq<Token>, fs: seq<OrderField>)
    requires IsOrder(ts, fs) && AllWritable(ts)
    ensures OrderOk(fs)
    decreases |ts|
  {
    hide AllWritable, IsKeyword, IsWord;
    if |fs| == 1 && IsOrderItem(ts, fs[0]) {
      WritableWord(ts, 0);
    } else {
      var k: nat :| k < |ts| && ts[k].kind == Comma && IsOrderItem(ts[..k], fs[0]) && IsOrder(ts[k + 1..], fs[1..]);
      WritableWord(ts, 0);
      assert ts[..k][0] == ts[0];
      WritablePart(ts, k + 1, |ts|);
      OrderImage(ts[k + 1..], fs[1..]);
      assert forall i :: 1 <= i < |fs| ==> fs[i] == fs[1..][i - 1];
    }
  }

  lemma LimitImage(ts: seq<Token>, n: int)
    requires IsLimit(ts, n)
    ensures 0 <= n <= MAX_INT
  {
    hide IsKeyword;
  }

  lemma ParseImage(s: string)
    requires Parse(s).Ok?
    ensures QueryOk(Parse(s).value)
  {
    hide Parse, Written, AllWritable, IsOr, IsOrder, IsLimit, ExprOk, OrderOk;
    var q := Parse(s).value;
    ParseIff(s, q);
    var ts :| Written(s, ts) && IsQuery(ts, q);
    WrittenIsWritable(s, ts);
    var i: nat, j: nat :| QuerySplits(ts, q, i, j);
    WritablePart(ts, 0, i);
    OrImage(ts[..i], q.where);
    LimitImage(ts[j..], q.limit);
    NoOrderOk();
    if q.orderBy != [] {
      WritablePart(ts, i + 2, j);
      assert ts[i..j][2..] == ts[i + 2..j];
      OrderImage(ts[i + 2..j], q.orderBy);
    }
  }

  lemma NoOrderOk()
    ensures OrderOk([])
  {
  }

  /** A query can be written down exactly when it passes QueryOk, and then its
      printed form is one of its texts. */
  lemma QueriesWithText(q: Query)
    ensures (exists s: string :: Parse(s) == Ok(q)) <==> QueryOk(q)
  {
    if s: string :| Parse(s) == Ok(q) {
      ParseImage(s);
    }
    if QueryOk(q) {
      ParseOfPrint(q);
    }
    hide Parse, QueryOk;
  }

  /** Printing what was parsed and parsing it again changes nothing. */
  lemma ReprintStable(s: string)
    requires Parse(s).Ok?
    ensures Parse(Print(Parse(s).value)) == Parse(s)
  {
    ParseImage(s);
    ParseOfPrint(Parse(s).value);
  }
}
