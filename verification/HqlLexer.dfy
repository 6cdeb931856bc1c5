/** The tokenizer (internal/hql/lexer.go). */
module HqlLexer {
  import opened Wrappers
  import opened HqlAst

  datatype Kind = EOF | Word | Str | Op | LParen | RParen | Comma

  datatype Token = Token(kind: Kind, val: string)

  const END := Token(EOF, "")
  const OPEN := Token(LParen, "(")
  const CLOSE := Token(RParen, ")")
  const COMMA := Token(Comma, ",")

  predicate IsWordByte(c: char) {
    || 'a' <= c <= 'z' || 'A' <= c <= 'Z' || '0' <= c <= '9'
    || c == '_' || c == '.' || c == ':' || c == '@' || c == '%'
    || c == '/' || c == '-' || c == '+' || c == '*'
  }

  predicate IsSpace(c: char) {
    c == ' ' || c == '\t' || c == '\n' || c == '\r'
  }

  predicate IsQuote(c: char) {
    c == '\'' || c == '"'
  }

  // ---- specification: a reader of the remaining input

  /** Length of the word at the start of `s`. */
  function WordLength(s: string): (n: nat)
    ensures n <= |s|
    ensures forall i :: 0 <= i < n ==> IsWordByte(s[i])
    ensures n < |s| ==> !IsWordByte(s[n])
  {
    if s == [] || !IsWordByte(s[0]) then 0 else 1 + WordLength(s[1..])
  }

  /** Length of the operator at the start of `s`. */
  function OpLength(s: string): (n: nat)
    requires s != []
    ensures 1 <= n <= 2 && n <= |s|
  {
    if |s| > 1 && ((s[0] == '!' && (s[1] == '=' || s[1] == '~'))
                   || ((s[0] == '<' || s[0] == '>') && s[1] == '=')) then 2
    else 1
  }

  datatype Literal = Literal(val: string, length: nat)

  function Extended(done: string, length: nat, r: Option<Literal>): Option<Literal> {
    match r
    case None => None
    case Some(rest) => Some(Literal(done + rest.val, length + rest.length))
  }

  lemma ExtendedTwice(a: string, m: nat, b: string, n: nat, r: Option<Literal>)
    ensures Extended(a, m, Extended(b, n, r)) == Extended(a + b, m + n, r)
    ensures Extended([], 0, r) == r
  {
    if r.Some? {
      assert a + (b + r.value.val) == a + b + r.value.val;
      assert [] + r.value.val == r.value.val;
    }
  }

  /** The literal whose opening quote `q` has just been read: its value, and how
      much of `s` it takes up, closing quote included. */
  function StringBody(s: string, q: char): (r: Option<Literal>)
    ensures r.Some? ==> 1 <= r.value.length <= |s|
    decreases |s|
  {
    if s == [] then None
    else if s[0] == q then
      if |s| > 1 && s[1] == q then
        Extended([q], 2, StringBody(s[2..], q))
      else Some(Literal([], 1))
    else
      Extended([s[0]], 1, StringBody(s[1..], q))
  }

  function Prefixed(done: seq<Token>, r: Result<seq<Token>, Error>): Result<seq<Token>, Error> {
    match r
    case Err(e) => Err(e)
    case Ok(rest) => Ok(done + rest)
  }

  /** What one turn of the scanner does at the start of the remaining input. */
  datatype Turn = Skip | Emit(tok: Token, length: nat) | Fail(error: Error)

  function Scan(s: string): (r: Turn)
    requires s != []
    ensures r.Emit? ==> 1 <= r.length <= |s|
  {
    var c := s[0];
    if IsSpace(c) then Skip
    else if c == '(' then Emit(OPEN, 1)
    else if c == ')' then Emit(CLOSE, 1)
    else if c == ',' then Emit(COMMA, 1)
    else if IsQuote(c) then
      match StringBody(s[1..], c)
      case None => Fail(UnterminatedString)
      case Some(lit) => Emit(Token(Str, lit.val), 1 + lit.length)
    else if c == '=' || c == '~' then Emit(Token(Op, [c]), 1)
    else if c == '!' || c == '<' || c == '>' then Emit(Token(Op, s[..OpLength(s)]), OpLength(s))
    else if IsWordByte(c) then Emit(Token(Word, s[..WordLength(s)]), WordLength(s))
    else Fail(UnexpectedCharacter)
  }

  function Tokens(s: string): (r: Result<seq<Token>, Error>)
    decreases |s|
  {
    if s == [] then Ok([END])
    else
      match Scan(s)
      case Skip => Tokens(s[1..])
      case Emit(tok, n) => Prefixed([tok], Tokens(s[n..]))
      case Fail(e) => Err(e)
  }

  // ---- the loops

  lemma PrefixedTwice(a: seq<Token>, b: seq<Token>, r: Result<seq<Token>, Error>)
    ensures Prefixed(a, Prefixed(b, r)) == Prefixed(a + b, r)
  {
    if r.Ok? {
      assert a + (b + r.value) == a + b + r.value;
    }
  }

  lemma PrefixedNothing(a: seq<Token>, r: Result<seq<Token>, Error>)
    ensures Prefixed([], r) == r
    ensures r.Err? ==> Prefixed(a, r) == r
  {
    if r.Ok? {
      assert [] + r.value == r.value;
    }
  }

  method LexString(input: string, i: nat) returns (r: Result<(string, nat), Error>)
    requires i < |input|
    ensures match StringBody(input[i + 1..], input[i])
      case None => r == Err(UnterminatedString)
      case Some(lit) => r == Ok((lit.val, i + 1 + lit.length))
  {
    var q := input[i];
    var b: string := [];
    var j := i + 1;
    ExtendedTwice([], 0, [], 0, StringBody(input[j..], q));
    while j < |input|
      invariant i + 1 <= j <= |input|
      invariant StringBody(input[i + 1..], q) == Extended(b, j - (i + 1), StringBody(input[j..], q))
    {
      ghost var rest := input[j..];
      if input[j] == q {
        if j + 1 < |input| && input[j + 1] == q {
          assert rest[2..] == input[j + 2..];
          ExtendedTwice(b, j - (i + 1), [q], 2, StringBody(input[j + 2..], q));
          b := b + [q];
          j := j + 2;
          continue;
        }
        assert b + [] == b;
        return Ok((b, j + 1));
      }
      assert rest[1..] == input[j + 1..];
      ExtendedTwice(b, j - (i + 1), [input[j]], 1, StringBody(input[j + 1..], q));
      b := b + [input[j]];
      j := j + 1;
    }
    return Err(UnterminatedString);
  }

  method LexOp(input: string, i: nat) returns (op: string, next: nat)
    requires i < |input|
    ensures op == input[i..][..OpLength(input[i..])] && next == i + OpLength(input[i..])
  {
    var c := input[i];
    if i + 1 < |input| {
      var n := input[i + 1];
      if (c == '!' && (n == '=' || n == '~')) || ((c == '<' || c == '>') && n == '=') {
        return input[i..i + 2], i + 2;
      }
    }
    return [c], i + 1;
  }

  method WordEnd(input: string, start: nat) returns (i: nat)
    requires start <= |input|
    ensures start <= i <= |input| && i - start == WordLength(input[start..])
  {
    i := start;
    while i < |input| && IsWordByte(input[i])
      invariant start <= i <= |input|
      invariant WordLength(input[start..]) == i - start + WordLength(input[i..])
    {
      assert input[i..][1..] == input[i + 1..];
      i := i + 1;
    }
  }

  method Lex(input: string) returns (r: Result<seq<Token>, Error>)
    ensures r == Tokens(input)
  {
    hide Prefixed, Tokens, IsWordByte, StringBody, OpLength;
    var toks: seq<Token> := [];
    var i := 0;
    PrefixedNothing([], Tokens(input));
    assert input[0..] == input;
    while i < |input|
      invariant 0 <= i <= |input|
      invariant Tokens(input) == Prefixed(toks, Tokens(input[i..]))
    {
      var start := i;
      ghost var before, rest := toks, input[i..];
      TokensTurn(toks, rest);
      var c := input[i];
      if IsSpace(c) {
        i := i + 1;
      } else if c == '(' {
        toks := toks + [OPEN];
        i := i + 1;
      } else if c == ')' {
        toks := toks + [CLOSE];
        i := i + 1;
      } else if c == ',' {
        toks := toks + [COMMA];
        i := i + 1;
      } else if IsQuote(c) {
        assert rest[1..] == input[i + 1..];
        var lit := LexString(input, i);
        if lit.Err? {
          return Err(lit.error);
        }
        toks := toks + [Token(Str, lit.value.0)];
        i := lit.value.1;
      } else if c == '=' || c == '~' {
        toks := toks + [Token(Op, [c])];
        i := i + 1;
      } else if c == '!' || c == '<' || c == '>' {
        var op, next := LexOp(input, i);
        toks := toks + [Token(Op, op)];
        i := next;
      } else if IsWordByte(c) {
        i := WordEnd(input, start);
        assert rest[..i - start] == input[start..i];
        toks := toks + [Token(Word, input[start..i])];
      } else {
        return Err(UnexpectedCharacter);
      }
      Continued(input, start, i, before, toks);
    }
    assert input[i..] == [];
    NoTokens(toks);
    toks := toks + [END];
    return Ok(toks);
  }

  /** A failing turn ends the scan, whatever came before. */
  lemma TokensTurn(toks: seq<Token>, rest: string)
    requires rest != []
    ensures Scan(rest).Fail? ==> Prefixed(toks, Tokens(rest)) == Err(Scan(rest).error)
  {
    hide Scan;
  }

  lemma NoTokens(toks: seq<Token>)
    ensures Prefixed(toks, Tokens([])) == Ok(toks + [END])
  {
  }

  lemma Continued(input: string, start: nat, i: nat, before: seq<Token>, toks: seq<Token>)
    requires start < |input|
    requires match Scan(input[start..])
      case Skip => i == start + 1 && toks == before
      case Emit(tok, n) => i == start + n && toks == before + [tok]
      case Fail(e) => false
    ensures Prefixed(before, Tokens(input[start..])) == Prefixed(toks, Tokens(input[i..]))
  {
    hide Scan;
    var rest := input[start..];
    assert rest[i - start..] == input[i..];
    if Scan(rest).Emit? {
      PrefixedTwice(before, [Scan(rest).tok], Tokens(input[i..]));
    }
  }
}
