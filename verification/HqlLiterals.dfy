/** What the words of a filter stand for: fields, durations, dates and functions
    (internal/hql/schema.go, internal/hql/functions.go). */
module HqlLiterals {
  import opened Wrappers
  import opened Numerals
  import opened HqlAst
  import opened HqlSchema

  // ---- fields

  const TEXT_FIELDS := {"text", "body", "title", "description", "intent_terms", "source_uri"}
  const ID_FIELDS := {"type", "id", "language"}
  const TAG_FAMILIES := {"domain", "lei", "livro", "titulo", "capitulo", "secao"}

  function KindNamed(name: string): Option<FieldKind> {
    if name in TEXT_FIELDS then Some(KText)
    else if name in ID_FIELDS then Some(KID)
    else if name in TAG_FAMILIES || name == "tag" then Some(KTagPrefix)
    else if name == "epoch" then Some(KInt)
    else if name == "updated" then Some(KDate)
    else None
  }

  function ColumnNamed(name: string): string {
    match name
    case "text" => "body"
    case "epoch" => "last_epoch"
    case "updated" => "updated_at"
    case _ => if name == "tag" || name in TAG_FAMILIES then "tags" else name
  }

  function PrefixNamed(name: string): string {
    if name in TAG_FAMILIES then name + ":" else ""
  }

  /** A field is found by its name in any letter case. It is kept in the column of that
      name, but for three; a family of tags has its own name and a colon in front. */
  lemma FieldNamed(field: string)
    ensures
      var name := Lower(field);
      match LookupField(field)
      case None => KindNamed(name).None?
      case Some(f) =>
        && KindNamed(name) == Some(f.kind)
        && f.column == ColumnNamed(name)
        && f.prefix == PrefixNamed(name)
  {
    hide Lower;
    var name := Lower(field);
    if name in TAG_FAMILIES {
      assert "domain" + ":" == "domain:" && "lei" + ":" == "lei:" && "livro" + ":" == "livro:";
      assert "titulo" + ":" == "titulo:" && "capitulo" + ":" == "capitulo:" && "secao" + ":" == "secao:";
    }
  }

  // ---- relative durations

  /** `s` is an optional sign and digits that spell `n`. */
  ghost predicate Spells(s: string, n: int) {
    exists sign, digits ::
      && s == sign + digits && sign in {"", "+", "-"} && digits != [] && AllDigits(digits)
      && n == if sign == "-" then -Decimal(0, digits) else Decimal(0, digits)
  }

  /** A number is read exactly when it is spelled so and an int holds it. */
  lemma AtoiSpells(s: string, n: int)
    ensures Atoi(s) == Some(n) <==> Spells(s, n) && -0x8000_0000_0000_0000 <= n <= 0x7FFF_FFFF_FFFF_FFFF
  {
    var signed := s != [] && (s[0] == '-' || s[0] == '+');
    var digits := if signed then s[1..] else s;
    if digits != [] && AllDigits(digits) {
      var sign := s[..|s| - |digits|];
      assert s == sign + digits;
      assert signed ==> sign == [s[0]];
      assert sign in {"", "+", "-"};
      assert Spells(s, if signed && s[0] == '-' then -Decimal(0, digits) else Decimal(0, digits));
    }
    if Spells(s, n) {
      var sign, tail :| s == sign + tail && sign in {"", "+", "-"} && tail != [] && AllDigits(tail)
        && n == if sign == "-" then -Decimal(0, tail) else Decimal(0, tail);
      assert sign == "" ==> s == tail;
      assert sign != "" ==> s[0] == sign[0] && s[1..] == tail;
    }
  }

  /** The units, each by the one before it. */
  lemma DurationUnits(number: string)
    requires Atoi(number).Some?
    ensures ParseRelative(number + "s") == Some(Atoi(number).value * 1_000_000_000)
    ensures ParseRelative(number + "m") == Some(60 * ParseRelative(number + "s").value)
    ensures ParseRelative(number + "h") == Some(60 * ParseRelative(number + "m").value)
    ensures ParseRelative(number + "d") == Some(24 * ParseRelative(number + "h").value)
    ensures ParseRelative(number + "w") == Some(7 * ParseRelative(number + "d").value)
  {
    hide Atoi;
    OneUnit(number, 's');
    OneUnit(number, 'm');
    OneUnit(number, 'h');
    OneUnit(number, 'd');
    OneUnit(number, 'w');
  }

  lemma OneUnit(number: string, unit: char)
    requires Atoi(number).Some? && UnitOf(unit).Some?
    ensures ParseRelative(number + [unit]) == Some(Atoi(number).value * UnitOf(unit).value)
  {
    hide Atoi, UnitOf;
    assert (number + [unit])[..|number|] == number;
  }

  /** Nothing else is a relative duration. */
  lemma RelativeIff(s: string)
    ensures ParseRelative(s).Some? <==> s != [] && s[|s| - 1] in "smhdw" && Atoi(s[..|s| - 1]).Some?
  {
  }

  // ---- dates

  function Clock(ctx: EvalContext): int {
    match ctx.clock
    case None => 0
    case Some(t) => t
  }

  /** A relative duration is counted from the clock, back when it has a minus sign; any
      other date is read by the calendar, with a time of day or without. */
  function Instant(raw: string, ctx: EvalContext): Option<int> {
    if ParseRelative(raw).Some? then Some(Clock(ctx) + ParseRelative(raw).value)
    else if ctx.rfc3339(raw).Some? then ctx.rfc3339(raw)
    else ctx.dateOnly(raw)
  }

  lemma DateLiteral(raw: string, ctx: EvalContext)
    ensures match Instant(raw, ctx)
      case None => ResolveDate(raw, ctx) == Err(NotADate)
      case Some(t) => ResolveDate(raw, ctx) == Ok(TimeArg(t))
  {
  }

  /** `-7d` and its like: so many days before the clock. */
  lemma DaysAgo(n: nat, ctx: EvalContext)
    requires n <= MAX_INT
    ensures Instant("-" + NumberText(n) + "d", ctx) == Some(Clock(ctx) - n * 86_400_000_000_000)
  {
    var number, back: int := "-" + NumberText(n), 0 - n;
    DecimalOfNumber(n);
    assert Spells(number, back);
    AtoiSpells(number, back);
    DurationUnits(number);
    hide Spells, Atoi, NumberText, ParseRelative;
  }

  // ---- functions

  const FUNCTIONS := {"now", "today", "startofday", "endofday"}

  /** What is passed for a literal: an instant for a function, its text otherwise. */
  function LiteralArg(v: Value, ctx: EvalContext): Arg {
    if !v.ValFunc? then TextArg(v.raw)
    else
      TimeArg(
        match Lower(v.raw)
        case "now" => Clock(ctx)
        case "endofday" => ctx.endOfDay(Clock(ctx))
        case _ => ctx.startOfDay(Clock(ctx)))
  }

  /** The functions go by their names in any letter case and take no arguments. */
  lemma LiteralValue(v: Value, ctx: EvalContext)
    ensures ResolveScalar(v, ctx) ==
      if v.ValFunc? && Lower(v.raw) !in FUNCTIONS then Err(UnsupportedFunction)
      else if v.ValFunc? && v.args != [] then Err(WrongArity)
      else Ok(LiteralArg(v, ctx))
  {
  }
}
