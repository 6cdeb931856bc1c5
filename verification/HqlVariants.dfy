/** Ways of writing one query: letter case, quotes, directions, parentheses and commas. */
module HqlVariants {
  import opened Wrappers
  import opened HqlAst
  import opened HqlLexer
  import opened HqlParser
  import opened HqlGrammar
  import opened HqlAccepted
  import opened HqlScanned
  import opened HqlRoundTrip

  // ---- letter case

  /** The same character, or the two cases of one ASCII letter. */
  predicate SameLetter(c: char, d: char) {
    || c == d
    || ('a' <= c <= 'z' && d as int == c as int - 32)
    || ('a' <= d <= 'z' && c as int == d as int - 32)
  }

  /** Keywords are compared letter by letter without regard to case. */
  lemma FoldsLetterwise(s: string, t: string)
    ensures EqualFold(s, t) <==> |s| == |t| && forall i :: 0 <= i < |s| ==> SameLetter(s[i], t[i])
  {
    if EqualFold(s, t) {
      assert |Upper(s)| == |Upper(t)|;
      forall i | 0 <= i < |s| ensures SameLetter(s[i], t[i]) {
        assert Upper(s)[i] == Upper(t)[i];
      }
    }
    if |s| == |t| && forall i :: 0 <= i < |s| ==> SameLetter(s[i], t[i]) {
      assert forall i :: 0 <= i < |s| ==> Upper(s)[i] == Upper(t)[i];
    }
  }

  /** Field names, functions and tags of fields are compared in lower case, which is the
      same comparison. */
  lemma LowerFolds(s: string, t: string)
    ensures Lower(s) == Lower(t) <==> EqualFold(s, t)
  {
    FoldsLetterwise(s, t);
    if Lower(s) == Lower(t) {
      assert |Lower(s)| == |Lower(t)|;
      forall i | 0 <= i < |s| ensures SameLetter(s[i], t[i]) {
        assert Lower(s)[i] == Lower(t)[i];
      }
    }
    if EqualFold(s, t) {
      assert forall i :: 0 <= i < |s| ==> Lower(s)[i] == Lower(t)[i];
    }
  }

  /** Two texts with the same tokens but for the case of keywords, the quotes of strings
      and the white space between them are one query. */
  lemma SameQuery(s: string, t: string, ts: seq<Token>, us: seq<Token>, q: Query)
    requires Written(s, ts) && Written(t, us) && IsQuery(ts, q) && IsQuery(us, q)
    ensures Parse(s) == Ok(q) && Parse(t) == Ok(q)
  {
    hide Written, IsQuery, Parse;
    ParseIff(s, q);
    ParseIff(t, q);
  }

  // ---- directions

  /** `k` is where the field of an item of the order stands. */
  predicate ItemAt(ts: seq<Token>, f: OrderField, k: nat) {
    && k < |ts| && ts[k] == Token(Word, f.field)
    && (f.desc <==> k + 1 < |ts| && IsKeyword(ts[k + 1], "DESC"))
  }

  /** Each field of an accepted order descends exactly when the word after it is DESC, in
      any letter case; ASC and nothing are the same. */
  lemma {:induction false} DescendingIff(ts: seq<Token>, fs: seq<OrderField>) returns (starts: seq<nat>)
    requires IsOrder(ts, fs)
    ensures |starts| == |fs|
    ensures forall i :: 0 <= i < |fs| ==> ItemAt(ts, fs[i], starts[i])
    ensures forall i, j :: 0 <= i < j < |fs| ==> starts[i] < starts[j]
    decreases |ts|
  {
    hide IsKeyword, IsOrder;
    if |fs| == 1 && IsOrderItem(ts, fs[0]) {
      ItemStarts(ts, fs[0], []);
      assert ts + [] == ts;
      starts := [0];
    } else {
      var k := FirstItem(ts, fs);
      ItemStarts(ts[..k], fs[0], ts[k..]);
      assert ts[..k] + ts[k..] == ts;
      var later := DescendingIff(ts[k + 1..], fs[1..]);
      starts := [0] + seq(|later|, i requires 0 <= i < |later| => later[i] + k + 1);
      forall i | 0 <= i < |fs| ensures ItemAt(ts, fs[i], starts[i]) {
        if i > 0 {
          assert ItemAt(ts[k + 1..], fs[1..][i - 1], later[i - 1]);
        }
      }
    }
  }

  lemma FirstItem(ts: seq<Token>, fs: seq<OrderField>) returns (k: nat)
    requires IsOrder(ts, fs) && !(|fs| == 1 && IsOrderItem(ts, fs[0]))
    ensures k < |ts| && ts[k].kind == Comma && fs != [] && IsOrderItem(ts[..k], fs[0]) && IsOrder(ts[k + 1..], fs[1..])
  {
    hide IsOrderItem;
    k :| k < |ts| && ts[k].kind == Comma && IsOrderItem(ts[..k], fs[0]) && IsOrder(ts[k + 1..], fs[1..]);
  }

  lemma ItemStarts(ts: seq<Token>, f: OrderField, rest: seq<Token>)
    requires IsOrderItem(ts, f) && (rest == [] || rest[0].kind == Comma)
    ensures ItemAt(ts + rest, f, 0)
  {
    if |ts| == 2 {
      KeywordsApart(ts[1]);
    } else if rest != [] {
      CommaFollows(rest[0]);
      assert (ts + rest)[1] == rest[0];
      assert !IsKeyword(rest[0], "DESC");
    }
    hide EqualFold;
  }

  /** A direction may be added to an item that has none. */
  lemma AscendingIsDefault(field: Token, asc: Token, f: OrderField)
    requires IsKeyword(asc, "ASC")
    ensures IsOrderItem([field], f) <==> IsOrderItem([field, asc], f)
  {
    KeywordsApart(asc);
    hide EqualFold;
  }

  // ---- parentheses and commas

  /** Parentheses around the whole condition change nothing. */
  lemma InParentheses(ts: seq<Token>, q: Query, i: nat, j: nat)
    requires QuerySplits(ts, q, i, j)
    ensures IsQuery([OPEN] + ts[..i] + [CLOSE] + ts[i..], q)
  {
    var us, w := [OPEN] + ts[..i] + [CLOSE] + ts[i..], [OPEN] + ts[..i] + [CLOSE];
    BracketsRead(ts[..i]);
    ParenthesesAnywhere(ts[..i], q.where);
    hide IsOr, IsNot, IsAnd, IsOrderBy, IsLimit;
    assert us[..i + 2] == w && us[i + 2..j + 2] == ts[i..j] && us[j + 2..] == ts[j..];
    assert QuerySplits(us, q, i + 2, j + 2);
  }

  /** Nor do they around any part of a condition: what is a condition is one in
      parentheses, wherever a negation or comparison may stand. */
  lemma ParenthesesAnywhere(ts: seq<Token>, e: Expr)
    requires IsOr(ts, e)
    ensures var us := [OPEN] + ts + [CLOSE]; IsNot(us, e) && IsAnd(us, e) && IsOr(us, e)
  {
    hide IsOr, IsNot, IsAnd;
    var us := [OPEN] + ts + [CLOSE];
    BracketsRead(ts);
    GroupIsNot(us, e);
    NotIsAnd(us, e);
    AndIsOr(us, e);
  }

  /** A comma may follow the last value of a list or call. */
  lemma {:induction false} TrailingComma(ts: seq<Token>, vs: seq<Value>)
    requires IsArgs(ts, vs) && ts != [] && ts[|ts| - 1].kind != Comma
    ensures IsArgs(ts + [COMMA], vs)
    decreases |ts|
  {
    hide IsValue, IsArgs;
    NoArgs(ts);
    if |vs| == 1 && IsValue(ts, vs[0]) {
      NoArgs([]);
      ArgsJoined(ts, vs[0], COMMA, [], []);
      assert ts + [COMMA] + [] == ts + [COMMA] && [vs[0]] + [] == vs;
    } else {
      SomeArgs(ts, vs);
      var k: nat :| ArgEnds(ts, vs, k);
      var later := ts[k + 1..];
      TrailingComma(later, vs[1..]);
      ArgsJoined(ts[..k], vs[0], ts[k], later + [COMMA], vs[1..]);
      assert ts + [COMMA] == ts[..k] + [ts[k]] + (later + [COMMA]) && [vs[0]] + vs[1..] == vs;
    }
  }
}
