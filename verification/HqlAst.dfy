/** Queries of the HQL filter language (internal/hql/ast.go). A Go string is the
    sequence of its bytes, one char each. */
module HqlAst {
  import opened Wrappers

  const OP_EQ := "="
  const OP_NE := "!="
  const OP_CONTAINS := "~"
  const OP_NOT_CONTAINS := "!~"
  const OP_GT := ">"
  const OP_GE := ">="
  const OP_LT := "<"
  const OP_LE := "<="
  const OP_IN := "in"
  const OP_NOT_IN := "notin"
  const OP_EMPTY := "empty"
  const OP_NOT_EMPTY := "notempty"

  /** A literal or a function call. */
  datatype Value =
    | ValString(raw: string)
    | ValWord(raw: string)
    | ValFunc(raw: string, args: seq<Value>)

  datatype Expr =
    | And(l: Expr, r: Expr)
    | Or(l: Expr, r: Expr)
    | Not(x: Expr)
    | Comparison(field: string, op: string, value: Option<Value>, list: seq<Value>)

  datatype OrderField = OrderField(field: string, desc: bool)

  datatype Query = Query(where: Expr, orderBy: seq<OrderField>, limit: int)

  datatype Error =
    | UnexpectedCharacter
    | UnterminatedString
    | EmptyQuery
    | ExpectedBy
    | ExpectedLimitNumber
    | BadLimit
    | UnexpectedToken
    | ExpectedCloseParen
    | ExpectedField
    | ExpectedOperator
    | ExpectedIn
    | ExpectedEmpty
    | ExpectedCloseCall
    | ExpectedValue
    | ExpectedList
    | ExpectedCloseList
    | EmptyList
    | ExpectedOrderField

  // ---- ASCII case folding

  function UpperChar(c: char): char {
    if 'a' <= c <= 'z' then (c as int - 32) as char else c
  }

  function LowerChar(c: char): char {
    if 'A' <= c <= 'Z' then (c as int + 32) as char else c
  }

  function Upper(s: string): (r: string)
    ensures |r| == |s|
  {
    seq(|s|, i requires 0 <= i < |s| => UpperChar(s[i]))
  }

  function Lower(s: string): (r: string)
    ensures |r| == |s|
  {
    seq(|s|, i requires 0 <= i < |s| => LowerChar(s[i]))
  }

  predicate EqualFold(s: string, t: string) {
    Upper(s) == Upper(t)
  }
}
