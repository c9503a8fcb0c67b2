/** The MBQL backend: callbacks that build nested MBQL arrays and throw on unknown names. */
module Compiler {
  import opened Wrappers
  import opened Tokens
  import opened Metadata
  import opened Mbql
  import opened Grammar

  /** The head of a compiled aggregation: its short code, `undefined` when the keyword has none. */
  function AggregationHead(env: Env, keyword: Token): MbqlExpr {
    match ShortCode(env.validAggregations, keyword.image)
    case Some(short) => MString(short)
    case None => MUndefined
  }

  /** `_aggregation`: the short code followed by the argument values. */
  function AggregationValue(env: Env, aggregation: Token, lParen: Token, args: SepList<MbqlExpr>, rParen: Token): MbqlExpr {
    MList([AggregationHead(env, aggregation)] + args.values)
  }

  function MetricReference(metricName: MbqlExpr, metricId: int): MbqlExpr {
    MList([MString("METRIC"), MId(metricId)])
  }

  function FieldReference(fieldName: MbqlExpr, fieldId: int): MbqlExpr {
    MList([MString("field-id"), MId(fieldId)])
  }

  function ExpressionReference(fieldName: MbqlExpr, expression: CustomField): MbqlExpr {
    MList([MString("expression"), fieldName])
  }

  /** The text of a name value; names reach the compiler's callbacks as strings. Any other
      value stands for no name here. */
  function Text(x: MbqlExpr): string {
    if x.MString? then x.s else ""
  }

  /** `_toString` is the identity on names. */
  function NameText(env: Env, x: MbqlExpr): string {
    Text(x)
  }

  function UnknownField(fieldName: MbqlExpr): Built<MbqlExpr> {
    Throws("Unknown field \"" + Text(fieldName) + "\"")
  }

  function UnknownMetric(metricName: MbqlExpr, lParen: Token, rParen: Token): Built<MbqlExpr> {
    Throws("Unknown metric \"" + Text(metricName) + "\"")
  }

  function IdentifierValue(identifier: Token): MbqlExpr {
    MString(identifier.image)
  }

  /** String literals are decoded with `JSON.parse`. */
  function StringLiteralValue(env: Env, stringLiteral: Token): MbqlExpr {
    MString(env.fmt.unescape(stringLiteral.image))
  }

  /** Numbers stay their literal text (`parseFloat` is not modelled). */
  function NumberLiteralValue(numberLiteral: Token): MbqlExpr {
    MNumber(numberLiteral.image)
  }

  /** Parentheses are transparent. */
  function ParensValue(lParen: Token, expValue: MbqlExpr, rParen: Token): MbqlExpr {
    expValue
  }

  const MbqlBackend: Backend<MbqlExpr> := Grammar.Backend(
    Math, AggregationValue, MetricReference, FieldReference, ExpressionReference,
    UnknownField, UnknownMetric, IdentifierValue, StringLiteralValue, NumberLiteralValue,
    ParensValue, NameText)

  /** `compile`. */
  function Compile(env: Env, source: string, rule: StartRule, lex: string -> LexResult): Outcome<MbqlExpr> {
    Run(MbqlBackend, env, source, rule, lex)
  }
}
