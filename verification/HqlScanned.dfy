/** The scanner reads exactly the texts in which the tokens are written. */
module HqlScanned {
  import opened Wrappers
  import opened HqlAst
  import opened HqlLexer
  import opened HqlParser
  import opened HqlGrammar
  import opened HqlAccepted

  lemma WordLengthIs(s: string, n: nat)
    requires n <= |s| && (forall i :: 0 <= i < n ==> IsWordByte(s[i]))
    requires n < |s| ==> !IsWordByte(s[n])
    ensures WordLength(s) == n
  {
    hide IsWordByte;
    var m := WordLength(s);
    assert m < |s| ==> !IsWordByte(s[m]);
  }

  /** The rest of a quoted string: the value with its quotes doubled, the closing quote,
      and no further quote. */
  lemma {:induction false} StringBodyRead(s: string, q: char)
    requires StringBody(s, q).Some?
    ensures var lit := StringBody(s, q).value;
      && s[..lit.length] == Doubled(lit.val, q) + [q]
      && (lit.length < |s| ==> s[lit.length] != q)
    decreases |s|
  {
    hide Doubled;
    NothingDoubled(q);
    if s[0] != q {
      StringBodyRead(s[1..], q);
      var lit := StringBody(s[1..], q).value;
      DoubledMore(s[0], lit.val, q);
      assert s[..1 + lit.length] == [s[0]] + s[1..][..lit.length];
    } else if |s| > 1 && s[1] == q {
      StringBodyRead(s[2..], q);
      var lit := StringBody(s[2..], q).value;
      DoubledMore(q, lit.val, q);
      assert s[..2 + lit.length] == [q, q] + s[2..][..lit.length];
    }
  }

  lemma NothingDoubled(q: char)
    ensures Doubled([], q) == []
  {
  }

  lemma DoubledMore(c: char, s: string, q: char)
    ensures Doubled([c] + s, q) == (if c == q then [q, q] else [c]) + Doubled(s, q)
  {
    assert ([c] + s)[1..] == s;
  }

  lemma {:induction false} StringBodyWritten(v: string, q: char, rest: string)
    requires rest == [] || rest[0] != q
    ensures StringBody(Doubled(v, q) + [q] + rest, q) == Some(Literal(v, |Doubled(v, q)| + 1))
    decreases |v|
  {
    hide StringBody, Doubled;
    if v == [] {
      NothingDoubled(q);
      assert Doubled(v, q) + [q] + rest == [q] + rest;
      ClosingQuote(q, rest);
    } else {
      StringBodyWritten(v[1..], q, rest);
      var tail := Doubled(v[1..], q) + [q] + rest;
      assert [v[0]] + v[1..] == v;
      DoubledMore(v[0], v[1..], q);
      assert Doubled(v, q) + [q] + rest == (if v[0] == q then [q, q] else [v[0]]) + tail;
      QuotedChar(v[0], q, tail);
    }
  }

  lemma ClosingQuote(q: char, rest: string)
    requires rest == [] || rest[0] != q
    ensures StringBody([q] + rest, q) == Some(Literal([], 1))
  {
  }

  lemma QuotedChar(c: char, q: char, tail: string)
    ensures c != q ==> StringBody([c] + tail, q) == Extended([c], 1, StringBody(tail, q))
    ensures StringBody([q, q] + tail, q) == Extended([q], 2, StringBody(tail, q))
  {
    assert ([c] + tail)[1..] == tail && ([q, q] + tail)[2..] == tail;
  }

  /** One token at the start of a text. */
  ghost predicate Starts(s: string, t: Token, n: nat) {
    0 < n <= |s| && Spells(s[..n], t) && !RunsOn(s[..n], t, s[n..])
  }

  lemma WordStarts(s: string)
    requires s != [] && IsWordByte(s[0])
    ensures Starts(s, Token(Word, s[..WordLength(s)]), WordLength(s))
  {
    hide IsWordByte;
    assert WordLength(s) > 0;
  }

  lemma SymbolStarts(s: string)
    requires s != [] && s[0] in {'=', '~', '!', '<', '>'}
    ensures Starts(s, Token(Op, s[..OpLength(s)]), OpLength(s))
  {
    if |s| > 1 {
      assert s[..1] + [s[1]] == [s[0], s[1]] && s[..2] == [s[0], s[1]];
    }
    assert s[..1] == [s[0]];
  }

  lemma StringStarts(s: string)
    requires s != [] && IsQuote(s[0]) && StringBody(s[1..], s[0]).Some?
    ensures var lit := StringBody(s[1..], s[0]).value; Starts(s, Token(Str, lit.val), 1 + lit.length)
  {
    hide StringBody, Doubled;
    StringBodyRead(s[1..], s[0]);
    var n := StringBody(s[1..], s[0]).value.length;
    assert s[..1 + n] == [s[0]] + s[1..][..n];
  }

  /** What the scanner emits is written there. */
  lemma ScanStarts(s: string)
    requires s != [] && Scan(s).Emit?
    ensures Starts(s, Scan(s).tok, Scan(s).length)
  {
    hide StringBody, Doubled, WordLength, OpLength, IsWordByte, Starts;
    var c := s[0];
    SymbolLength(s);
    if IsQuote(c) {
      StringStarts(s);
    } else if c in {'=', '~', '!', '<', '>'} {
      SymbolStarts(s);
    } else if c in {'(', ')', ','} {
      PunctuationStarts(s);
    } else {
      WordStarts(s);
    }
  }

  lemma SymbolLength(s: string)
    requires s != []
    ensures s[0] == '=' || s[0] == '~' ==> OpLength(s) == 1 && s[..1] == [s[0]]
  {
  }

  lemma PunctuationStarts(s: string)
    requires s != [] && s[0] in {'(', ')', ','}
    ensures Starts(s, Token(if s[0] == '(' then LParen else if s[0] == ')' then RParen else Comma, [s[0]]), 1)
  {
    assert s[..1] == [s[0]];
  }

  /** What is written at the start is what the scanner emits. */
  lemma StartsScan(s: string, t: Token, n: nat)
    requires Starts(s, t, n)
    ensures Scan(s) == Emit(t, n)
  {
    hide StringBody, Doubled, WordLength, OpLength;
    assert s[..n][0] == s[0];
    if t.kind == Word {
      WordLengthIs(s, n);
    } else if t.kind == Str {
      StringScan(s, t, n);
    } else if t.kind == Op {
      SymbolScan(s, t, n);
    }
  }

  lemma StringScan(s: string, t: Token, n: nat)
    requires Starts(s, t, n) && t.kind == Str
    ensures IsQuote(s[0]) && StringBody(s[1..], s[0]) == Some(Literal(t.val, n - 1))
  {
    hide StringBody, Doubled;
    assert s[..n][0] == s[0];
    StringBodyWritten(t.val, s[0], s[n..]);
    assert s[1..] == Doubled(t.val, s[0]) + [s[0]] + s[n..] by {
      assert s == s[..n] + s[n..];
      assert s[..n] == Quoted(t.val, s[0]);
    }
  }

  lemma SymbolScan(s: string, t: Token, n: nat)
    requires Starts(s, t, n) && t.kind == Op
    ensures s[0] in {'=', '~', '!', '<', '>'} && OpLength(s) == n && t == Token(Op, s[..n])
    ensures s[0] == '=' || s[0] == '~' ==> n == 1 && s[..1] == [s[0]]
  {
    assert s[..n][0] == s[0];
    if n == 1 && |s| > 1 {
      assert s[..n] + [s[n..][0]] == [s[0], s[1]];
    }
    if n == 2 {
      assert s[..n] == [s[0], s[1]];
    }
  }

  lemma NothingStarts(s: string)
    requires s != [] && !Scan(s).Emit?
    ensures forall t, n :: !Starts(s, t, n)
  {
    hide Starts, Scan;
    forall t, n | Starts(s, t, n) ensures false {
      StartsScan(s, t, n);
    }
  }

  // ---- whole texts

  lemma WrittenUnrolled(s: string, ts: seq<Token>)
    requires s != []
    ensures Written(s, ts) <==>
      || (IsSpace(s[0]) && Written(s[1..], ts))
      || (ts != [] && exists n: nat :: Starts(s, ts[0], n) && Written(s[n..], ts[1..]))
  {
    hide Spells, RunsOn, IsSpace;
    if Written(s, ts) && !(IsSpace(s[0]) && Written(s[1..], ts)) {
      var n: nat :| 0 < n <= |s| && Spells(s[..n], ts[0]) && !RunsOn(s[..n], ts[0], s[n..]) && Written(s[n..], ts[1..]);
      assert Starts(s, ts[0], n);
    }
    if ts != [] && exists n: nat :: Starts(s, ts[0], n) && Written(s[n..], ts[1..]) {
      var n: nat :| Starts(s, ts[0], n) && Written(s[n..], ts[1..]);
      assert Spells(s[..n], ts[0]);
    }
  }

  lemma NothingWritten(ts: seq<Token>)
    ensures Written([], ts) <==> ts == []
    ensures Tokens([]) == Ok([END])
  {
  }

  /** The scanner yields these tokens exactly when they are written in the text. */
  lemma {:induction false} TokensIff(s: string, ts: seq<Token>)
    ensures Tokens(s) == Ok(ts + [END]) <==> Written(s, ts)
    decreases |s|
  {
    hide Written, Scan, Starts, Tokens, IsSpace;
    if s == [] {
      NothingWritten(ts);
      assert ts + [END] == [END] ==> |ts| == 0;
    } else {
      WrittenUnrolled(s, ts);
      TokensUnrolled(s);
      match Scan(s)
      case Skip =>
        SkipIsSpace(s);
        TokensIff(s[1..], ts);
        NothingStarts(s);
      case Emit(t, n) =>
        ScanStarts(s);
        SkipIsSpace(s);
        EmitIff(s, ts);
      case Fail(e) =>
        SkipIsSpace(s);
        NothingStarts(s);
    }
  }

  lemma SkipIsSpace(s: string)
    requires s != []
    ensures Scan(s).Skip? <==> IsSpace(s[0])
  {
  }

  lemma {:induction false} TokensUnrolled(s: string)
    requires s != []
    ensures Tokens(s) ==
      match Scan(s)
      case Skip => Tokens(s[1..])
      case Emit(tok, n) => Prefixed([tok], Tokens(s[n..]))
      case Fail(e) => Err(e)
  {
    hide Scan;
  }

  lemma EmitIff(s: string, ts: seq<Token>)
    requires s != [] && Scan(s).Emit? && Starts(s, Scan(s).tok, Scan(s).length) && !IsSpace(s[0])
    requires Tokens(s) == Prefixed([Scan(s).tok], Tokens(s[Scan(s).length..]))
    requires Written(s, ts) <==> ts != [] && exists n: nat :: Starts(s, ts[0], n) && Written(s[n..], ts[1..])
    ensures Tokens(s) == Ok(ts + [END]) <==> Written(s, ts)
    decreases |s|, 0
  {
    hide Written, Scan, Spells, RunsOn, Tokens, IsSpace;
    var t, n := Scan(s).tok, Scan(s).length;
    var more := Tokens(s[n..]);
    if Tokens(s) == Ok(ts + [END]) {
      TokensEnded(s[n..]);
      FirstApart(t, more.value, ts);
      TokensIff(s[n..], ts[1..]);
    }
    if Written(s, ts) {
      var m: nat :| Starts(s, ts[0], m) && Written(s[m..], ts[1..]);
      StartsScan(s, ts[0], m);
      TokensIff(s[n..], ts[1..]);
      assert [t] + (ts[1..] + [END]) == ts + [END];
    }
  }

  lemma FirstApart(t: Token, more: seq<Token>, ts: seq<Token>)
    requires Ended(more) && [t] + more == ts + [END]
    ensures ts != [] && ts[0] == t && more == ts[1..] + [END]
  {
    assert |[t] + more| == |ts + [END]| && |more| > 0;
    assert more == ([t] + more)[1..];
    assert ts[0] == (ts + [END])[0];
  }

  lemma {:induction false} EndIsLast(s: string)
    requires Tokens(s).Ok?
    ensures Tokens(s).value != [] && Tokens(s).value[|Tokens(s).value| - 1] == END
    decreases |s|
  {
    hide Scan, Tokens;
    if s == [] {
      NothingWritten([]);
    } else {
      TokensUnrolled(s);
      match Scan(s)
      case Skip => EndIsLast(s[1..]);
      case Emit(t, n) => EndIsLast(s[n..]);
      case Fail(e) =>
    }
  }
}
