/** The queryable fields and how literals resolve (internal/hql/schema.go,
    internal/hql/functions.go). */
module HqlSchema {
  import opened Wrappers
  import opened Numerals
  import opened HqlAst

  datatype FieldKind = KText | KID | KInt | KDate | KTagPrefix

  datatype Field = Field(column: string, prefix: string, kind: FieldKind)

  const TAGS := "tags"

  function LookupField(name: string): (f: Option<Field>)
    ensures f.Some? && f.value.kind == KTagPrefix ==> f.value.column == TAGS
  {
    var n := Lower(name);
    if n == "text" then Some(Field("body", "", KText))
    else if n == "body" then Some(Field("body", "", KText))
    else if n == "title" then Some(Field("title", "", KText))
    else if n == "description" then Some(Field("description", "", KText))
    else if n == "intent_terms" then Some(Field("intent_terms", "", KText))
    else if n == "source_uri" then Some(Field("source_uri", "", KText))
    else if n == "type" then Some(Field("type", "", KID))
    else if n == "id" then Some(Field("id", "", KID))
    else if n == "language" then Some(Field("language", "", KID))
    else if n == "tag" then Some(Field(TAGS, "", KTagPrefix))
    else if n == "domain" then Some(Field(TAGS, "domain:", KTagPrefix))
    else if n == "lei" then Some(Field(TAGS, "lei:", KTagPrefix))
    else if n == "livro" then Some(Field(TAGS, "livro:", KTagPrefix))
    else if n == "titulo" then Some(Field(TAGS, "titulo:", KTagPrefix))
    else if n == "capitulo" then Some(Field(TAGS, "capitulo:", KTagPrefix))
    else if n == "secao" then Some(Field(TAGS, "secao:", KTagPrefix))
    else if n == "epoch" then Some(Field("last_epoch", "", KInt))
    else if n == "updated" then Some(Field("updated_at", "", KDate))
    else None
  }

  predicate OpAllowed(f: Field, fieldName: string, op: string) {
    match f.kind
    case KText =>
      op == OP_CONTAINS || op == OP_NOT_CONTAINS || op == OP_EQ || op == OP_NE
      || op == OP_IN || op == OP_NOT_IN || op == OP_EMPTY || op == OP_NOT_EMPTY
    case KID =>
      op == OP_EQ || op == OP_NE || op == OP_IN || op == OP_NOT_IN
      || (EqualFold(fieldName, "id") && (op == OP_CONTAINS || op == OP_NOT_CONTAINS))
    case KInt => op == OP_EQ || op == OP_NE || op == OP_GT || op == OP_GE || op == OP_LT || op == OP_LE
    case KDate => op == OP_EQ || op == OP_NE || op == OP_GT || op == OP_GE || op == OP_LT || op == OP_LE
    case KTagPrefix =>
      op == OP_EQ || op == OP_NE || op == OP_IN || op == OP_NOT_IN || op == OP_EMPTY || op == OP_NOT_EMPTY
  }

  // ---- literals

  /** Instants are nanoseconds since 1970 in UTC. The calendar and the date
      formats are parameters: where the clock's day starts and ends, and which
      texts are RFC 3339 or YYYY-MM-DD dates. */
  datatype EvalContext = EvalContext(
    clock: Option<int>,
    startOfDay: int -> int,
    endOfDay: int -> int,
    rfc3339: string -> Option<int>,
    dateOnly: string -> Option<int>)
  {
    /** An unset clock reads as the Unix epoch. */
    function Now(): int {
      if clock.None? then 0 else clock.value
    }
  }

  /** What is passed to the database beside the SQL text. */
  datatype Arg = TextArg(text: string) | IntArg(n: int) | TimeArg(time: int) | ListArg(items: seq<Arg>)

  datatype SqlError =
    | UnknownField
    | OperatorNotAllowed
    | NeedsValue
    | NotADate
    | UnsupportedFunction
    | WrongArity
    | TagValueNotText
    | UnknownOrderField
    | OrderByTag

  const SECOND: int := 1_000_000_000

  function UnitOf(c: char): Option<int> {
    if c == 's' then Some(SECOND)
    else if c == 'm' then Some(60 * SECOND)
    else if c == 'h' then Some(3600 * SECOND)
    else if c == 'd' then Some(24 * 3600 * SECOND)
    else if c == 'w' then Some(7 * 24 * 3600 * SECOND)
    else None
  }

  /** A relative duration: a signed number and a unit letter. */
  function ParseRelative(s: string): Option<int> {
    if s == [] || UnitOf(s[|s| - 1]).None? then None
    else
      match Atoi(s[..|s| - 1])
      case None => None
      case Some(n) => Some(n * UnitOf(s[|s| - 1]).value)
  }

  function ResolveDate(raw: string, ctx: EvalContext): Result<Arg, SqlError> {
    match ParseRelative(raw)
    case Some(d) => Ok(TimeArg(ctx.Now() + d))
    case None =>
      match ctx.rfc3339(raw)
      case Some(t) => Ok(TimeArg(t))
      case None =>
        match ctx.dateOnly(raw)
        case Some(t) => Ok(TimeArg(t))
        case None => Err(NotADate)
  }

  function ResolveFunc(name: string, args: seq<Value>, ctx: EvalContext): Result<Arg, SqlError> {
    var n := Lower(name);
    if n != "now" && n != "today" && n != "startofday" && n != "endofday" then Err(UnsupportedFunction)
    else if args != [] then Err(WrongArity)
    else if n == "now" then Ok(TimeArg(ctx.Now()))
    else if n == "endofday" then Ok(TimeArg(ctx.endOfDay(ctx.Now())))
    else Ok(TimeArg(ctx.startOfDay(ctx.Now())))
  }

  function ResolveScalar(v: Value, ctx: EvalContext): Result<Arg, SqlError> {
    if v.ValFunc? then ResolveFunc(v.raw, v.args, ctx) else Ok(TextArg(v.raw))
  }

  /** A tag value is text, after the prefix of its field. */
  function TagValue(v: Value, prefix: string, ctx: EvalContext): Result<Arg, SqlError> {
    match ResolveScalar(v, ctx)
    case Err(e) => Err(e)
    case Ok(a) => if a.TextArg? then Ok(TextArg(prefix + a.text)) else Err(TagValueNotText)
  }
}
