/** How PostgreSQL reads and evaluates the emitted text: the precedence of its
    manual's section 4.1.6 (OR below AND below NOT below IS below comparison below
    LIKE below other operators), and the three-valued logic of its section 9.1. */
module HqlSqlRead {
  import opened Wrappers
  import opened HqlSchema
  import opened HqlSql
  import opened Like

  // ---- syntax

  datatype Scalar = Arg(index: int) | Text(text: string) | Num(n: int)

  datatype Sql =
    | SAnd(l: Sql, r: Sql)
    | SOr(l: Sql, r: Sql)
    | SNot(x: Sql)
    | SIsNull(col: string)
    | SCompare(col: string, op: Comparator, rhs: Scalar)
    | SAny(col: string, op: Comparator, index: int)
    | SAll(col: string, op: Comparator, index: int)
    | SILike(col: string, negated: bool, index: int, escape: string)
    | SLike(col: string, index: int)
    | SContains(col: string, index: int)
    | SCardinality(col: string, op: Comparator, n: int)
    | SLookup(lookup: Lookup, index: int)
    | SExists(source: string, item: string, cond: Sql)

  datatype Read = Read(sql: Sql, rest: seq<Tok>)

  function ReadOr(ts: seq<Tok>): (r: Option<Read>)
    ensures r.Some? ==> |r.value.rest| < |ts|
    decreases |ts|, 4
  {
    match ReadAnd(ts)
    case None => None
    case Some(l) => ReadOrTail(l.sql, l.rest)
  }

  function ReadOrTail(l: Sql, ts: seq<Tok>): (r: Option<Read>)
    ensures r.Some? ==> |r.value.rest| <= |ts|
    decreases |ts|, 5
  {
    if ts != [] && ts[0] == OrKw then
      match ReadAnd(ts[1..])
      case None => None
      case Some(r) => ReadOrTail(SOr(l, r.sql), r.rest)
    else Some(Read(l, ts))
  }

  function ReadAnd(ts: seq<Tok>): (r: Option<Read>)
    ensures r.Some? ==> |r.value.rest| < |ts|
    decreases |ts|, 2
  {
    match ReadNot(ts)
    case None => None
    case Some(l) => ReadAndTail(l.sql, l.rest)
  }

  function ReadAndTail(l: Sql, ts: seq<Tok>): (r: Option<Read>)
    ensures r.Some? ==> |r.value.rest| <= |ts|
    decreases |ts|, 3
  {
    if ts != [] && ts[0] == AndKw then
      match ReadNot(ts[1..])
      case None => None
      case Some(r) => ReadAndTail(SAnd(l, r.sql), r.rest)
    else Some(Read(l, ts))
  }

  function ReadNot(ts: seq<Tok>): (r: Option<Read>)
    ensures r.Some? ==> |r.value.rest| < |ts|
    decreases |ts|, 1
  {
    if ts != [] && ts[0] == NotKw then
      match ReadNot(ts[1..])
      case None => None
      case Some(x) => Some(Read(SNot(x.sql), x.rest))
    else ReadPredicate(ts)
  }

  /** A parenthesised condition, an EXISTS, or a test of one column. */
  function ReadPredicate(ts: seq<Tok>): (r: Option<Read>)
    ensures r.Some? ==> |r.value.rest| < |ts|
    decreases |ts|, 0
  {
    if ts == [] then None
    else
      match ts[0]
      case Open => Closed(ReadOr(ts[1..]))
      case ExistsKw =>
        if ExistsHead(ts[1..]) then
          match Closed(ReadOr(ts[11..]))
          case None => None
          case Some(x) => Some(Read(SExists(ts[7].name, ts[9].name, x.sql), x.rest))
        else None
      case CardinalityKw =>
        if |ts| >= 6 && ts[1] == Open && ts[2].Column? && ts[3] == Close && ts[4].Compare? && ts[5].Number? then
          Some(Read(SCardinality(ts[2].name, ts[4].op, ts[5].n), ts[6..]))
        else None
      case Column(col) => ReadColumnTest(col, ts[1..])
      case LookupTest(k) => if ArrayOperand(ts[1..]) then Some(Read(SLookup(k, ts[2].index), ts[4..])) else None
      case _ => None
  }

  /** A condition that a closing parenthesis follows. */
  function Closed(r: Option<Read>): (c: Option<Read>)
    ensures c.Some? ==> r.Some? && |c.value.rest| < |r.value.rest|
  {
    match r
    case None => None
    case Some(x) => if x.rest != [] && x.rest[0] == Close then Some(Read(x.sql, x.rest[1..])) else None
  }

  /** ( SELECT 1 FROM unnest ( column ) alias WHERE */
  predicate ExistsHead(ts: seq<Tok>) {
    && |ts| >= 10 && ts[0] == Open && ts[1] == SelectKw && ts[2] == Number(1) && ts[3] == FromKw && ts[4] == UnnestKw
    && ts[5] == Open && ts[6].Column? && ts[7] == Close && ts[8].Column? && ts[9] == WhereKw
  }

  function ReadColumnTest(col: string, ts: seq<Tok>): (r: Option<Read>)
    ensures r.Some? ==> |r.value.rest| <= |ts|
  {
    if |ts| < 2 then None
    else
      match ts[0]
      case IsKw => if ts[1] == NullKw then Some(Read(SIsNull(col), ts[2..])) else None
      case Compare(op) =>
        (match ts[1]
         case Placeholder(i) => Some(Read(SCompare(col, op, Arg(i)), ts[2..]))
         case Literal(t) => Some(Read(SCompare(col, op, Text(t)), ts[2..]))
         case Number(n) => Some(Read(SCompare(col, op, Num(n)), ts[2..]))
         case AnyKw => if ArrayOperand(ts[2..]) then Some(Read(SAny(col, op, ts[3].index), ts[5..])) else None
         case AllKw => if ArrayOperand(ts[2..]) then Some(Read(SAll(col, op, ts[3].index), ts[5..])) else None
         case _ => None)
      case ILikeKw => ReadILike(col, false, ts[1..])
      case NotKw => if ts[1] == ILikeKw then ReadILike(col, true, ts[2..]) else None
      case LikeKw => if ts[1].Placeholder? then Some(Read(SLike(col, ts[1].index), ts[2..])) else None
      case ContainsOp =>
        if |ts| >= 6 && ts[1] == ArrayKw && ts[2] == OpenBracket && ts[3].Placeholder? && ts[4] == CloseBracket
          && ts[5] == TextArrayCast then Some(Read(SContains(col, ts[3].index), ts[6..]))
        else None
      case _ => None
  }

  predicate ArrayOperand(ts: seq<Tok>) {
    |ts| >= 3 && ts[0] == Open && ts[1].Placeholder? && ts[2] == Close
  }

  function ReadILike(col: string, negated: bool, ts: seq<Tok>): (r: Option<Read>)
    ensures r.Some? ==> |r.value.rest| < |ts|
  {
    if |ts| >= 3 && ts[0].Placeholder? && ts[1] == EscapeKw && ts[2].Literal? then
      Some(Read(SILike(col, negated, ts[0].index, ts[2].text), ts[3..]))
    else None
  }

  /** A whole condition. */
  function ReadSql(ts: seq<Tok>): (r: Option<Sql>) {
    match ReadOr(ts)
    case None => None
    case Some(x) => if x.rest == [] then Some(x.sql) else None
  }

  // ---- meaning

  datatype Truth = True | False | Unknown

  function Neg(a: Truth): Truth {
    match a case True => False case False => True case Unknown => Unknown
  }

  function Conj(a: Truth, b: Truth): Truth {
    if a == False || b == False then False else if a == True && b == True then True else Unknown
  }

  function Disj(a: Truth, b: Truth): Truth {
    Neg(Conj(Neg(a), Neg(b)))
  }

  function Of(b: bool): Truth {
    if b then True else False
  }

  /** A column of a row; an array column holds texts. */
  datatype Cell = Null | TextCell(text: string) | IntCell(n: int) | TimeCell(time: int) | ArrayCell(items: seq<string>)

  type Row = string -> Cell

  /** What the server fixes beside the SQL text: how letters fold for ILIKE, and
      how the driver types an argument that is bound to a column of another type, and
      what the conditions hold that are not looked into. */
  datatype Server = Server(
    fold: char -> char,
    asText: Arg -> string,
    asInt: Arg -> int,
    asTime: Arg -> int,
    lookup: (Lookup, Row, Arg) -> Truth)
  {
    function TextOf(a: Arg): string {
      if a.TextArg? then a.text else asText(a)
    }

    function TimeOf(a: Arg): int {
      if a.TimeArg? then a.time else asTime(a)
    }
  }

  /** How a comparison is spelled. */
  function ComparatorText(op: Comparator): string {
    match op
    case EqOp => "="
    case NeOp => "!="
    case GtOp => ">"
    case GeOp => ">="
    case LtOp => "<"
    case LeOp => "<="
  }

  predicate CompareInts(m: int, op: Comparator, n: int) {
    match op
    case EqOp => m == n
    case NeOp => m != n
    case GtOp => m > n
    case GeOp => m >= n
    case LtOp => m < n
    case LeOp => m <= n
  }

  /** Texts are only ever compared for equality or difference. */
  function CompareCell(s: Server, c: Cell, op: Comparator, a: Arg): Truth {
    match c
    case Null => Unknown
    case TextCell(t) =>
      (match op
       case EqOp => Of(t == s.TextOf(a))
       case NeOp => Of(t != s.TextOf(a))
       case _ => Unknown)
    case IntCell(n) => Of(CompareInts(n, op, s.asInt(a)))
    case TimeCell(t) => Of(CompareInts(t, op, s.TimeOf(a)))
    case ArrayCell(_) => Unknown
  }

  /** `op` ANY of the items: true if one is true, else unknown if one is unknown. */
  function AnyOf(s: Server, c: Cell, op: Comparator, items: seq<Arg>): Truth {
    if items == [] then False else Disj(CompareCell(s, c, op, items[0]), AnyOf(s, c, op, items[1..]))
  }

  function AllOf(s: Server, c: Cell, op: Comparator, items: seq<Arg>): Truth {
    if items == [] then True else Conj(CompareCell(s, c, op, items[0]), AllOf(s, c, op, items[1..]))
  }

  function ItemsOf(a: Arg): seq<Arg> {
    if a.ListArg? then a.items else []
  }

  function ArgAt(args: seq<Arg>, index: int): Arg {
    if 1 <= index <= |args| then args[index - 1] else ListArg([])
  }

  function SomeItem(s: Server, row: Row, item: string, items: seq<string>, cond: Sql, args: seq<Arg>): Truth
    decreases cond, |items| + 1
  {
    if items == [] then False
    else if Eval(s, (c: string) => if c == item then TextCell(items[0]) else row(c), cond, args) == True then True
    else SomeItem(s, row, item, items[1..], cond, args)
  }

  function Eval(s: Server, row: Row, q: Sql, args: seq<Arg>): Truth
    decreases q, 0
  {
    match q
    case SAnd(l, r) => Conj(Eval(s, row, l, args), Eval(s, row, r, args))
    case SOr(l, r) => Disj(Eval(s, row, l, args), Eval(s, row, r, args))
    case SNot(x) => Neg(Eval(s, row, x, args))
    case SIsNull(col) => Of(row(col) == Null)
    case SCompare(col, op, rhs) =>
      (match rhs
       case Arg(i) => CompareCell(s, row(col), op, ArgAt(args, i))
       case Text(t) => CompareCell(s, row(col), op, TextArg(t))
       case Num(n) => if row(col).IntCell? then Of(CompareInts(row(col).n, op, n)) else Unknown)
    case SAny(col, op, i) => AnyOf(s, row(col), op, ItemsOf(ArgAt(args, i)))
    case SAll(col, op, i) => AllOf(s, row(col), op, ItemsOf(ArgAt(args, i)))
    case SILike(col, negated, i, escape) =>
      if !row(col).TextCell? || escape != [ESCAPE] then Unknown
      else
        var hit := Matches(Fold(s.fold, row(col).text), Fold(s.fold, s.TextOf(ArgAt(args, i))));
        Of(hit != negated)
    case SLike(col, i) =>
      if !row(col).TextCell? then Unknown else Of(Matches(row(col).text, s.TextOf(ArgAt(args, i))))
    case SContains(col, i) =>
      if !row(col).ArrayCell? then Unknown else Of(s.TextOf(ArgAt(args, i)) in row(col).items)
    case SCardinality(col, op, n) =>
      if !row(col).ArrayCell? then Unknown else Of(CompareInts(|row(col).items|, op, n))
    case SLookup(k, i) => s.lookup(k, row, ArgAt(args, i))
    case SExists(source, item, cond) =>
      if !row(source).ArrayCell? then False else SomeItem(s, row, item, row(source).items, cond, args)
  }
}
