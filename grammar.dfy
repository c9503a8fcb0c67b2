/** The expression grammar: recursive descent over a token sequence, with precedence
    climbing (additive over multiplicative over atomic) and the `outsideAggregation` flag that
    gates which atomic terms are allowed. The semantic actions are supplied by a backend. */
module Grammar {
  import opened Wrappers
  import opened Tokens
  import opened Metadata

  /** The two public entry rules: `expression` (a plain formula) and `aggregation`. */
  datatype StartRule = ExpressionRule | AggregationRule

  /** The parser's options and the external helpers it calls. */
  datatype Env = Env(
    table: Option<Table>,
    customFields: seq<CustomField>,
    validAggregations: seq<(string, string)>,
    fmt: Formatters)

  /** What `MANY_SEP` collects: the parsed items and the separator tokens between them. */
  datatype SepList<V> = SepList(values: seq<V>, separators: seq<Token>)

  /** A callback either builds a value or throws an `Error` with a message. */
  datatype Built<V> = Built(value: V) | Throws(message: string)

  /** The per-rule callbacks a backend implements (one field per callback of the source's
      subclasses); `toName` is `_toString`. */
  datatype Backend<!V> = Backend(
    math: (V, seq<(Token, V)>) -> V,
    aggregation: (Env, Token, Token, SepList<V>, Token) -> V,
    metricReference: (V, int) -> V,
    fieldReference: (V, int) -> V,
    expressionReference: (V, CustomField) -> V,
    unknownField: V -> Built<V>,
    unknownMetric: (V, Token, Token) -> Built<V>,
    identifier: Token -> V,
    stringLiteral: (Env, Token) -> V,
    numberLiteral: Token -> V,
    parens: (Token, V, Token) -> V,
    toName: (Env, V) -> string)

  /** A recognition error, carrying the offending token (`None` at the end of input). */
  datatype SyntaxError =
    | MismatchedToken(expected: TokenKind, found: Option<Token>)
    | NoViableAlternative(found: Option<Token>)
    | NotAllInputParsed(extra: Token)

  /** Why a rule did not return: a recognition error, or an error thrown by a callback. */
  datatype Failure = SyntaxFailure(error: SyntaxError) | Thrown(message: string)

  /** A rule's result: its value and the tokens it left, or the failure that stopped it. */
  datatype Parse<T> = Parsed(value: T, rest: seq<Token>) | Failed(failure: Failure)

  function Peek(ts: seq<Token>): Option<Token> {
    if |ts| == 0 then None else Some(ts[0])
  }

  predicate NextIs(ts: seq<Token>, k: TokenKind) {
    |ts| > 0 && ts[0].kind == k
  }

  function Mismatch<T>(k: TokenKind, ts: seq<Token>): Parse<T> {
    Failed(SyntaxFailure(MismatchedToken(k, Peek(ts))))
  }

  /** The token kinds an `expression` can start with, ignoring gates (the lookahead of `MANY_SEP`). */
  predicate StartsExpression(k: TokenKind) {
    k == Aggregation || k == Identifier || k == StringLiteral || k == LParen || k == NumberLiteral
  }

  /** `expression`: an additive expression under the given flag. */
  function Expression<V>(b: Backend<V>, env: Env, ts: seq<Token>, outside: bool): (r: Parse<V>)
    ensures r.Parsed? ==> IsStrictSuffix(r.rest, ts)
    decreases |ts|, 6
  {
    Additive(b, env, ts, outside)
  }

  /** `additionExpression`: a multiplicative term followed by any number of
      (AdditiveOperator, multiplicative term) pairs, handed to the backend's `math`. */
  function Additive<V>(b: Backend<V>, env: Env, ts: seq<Token>, outside: bool): (r: Parse<V>)
    ensures r.Parsed? ==> IsStrictSuffix(r.rest, ts)
    decreases |ts|, 5
  {
    match Multiplicative(b, env, ts, outside)
    case Failed(f) => Failed(f)
    case Parsed(initial, rest) =>
      match AdditiveOperations(b, env, rest, outside)
      case Failed(f) => Failed(f)
      case Parsed(operations, rest') =>
        SuffixChain(rest', rest, ts);
        Parsed(b.math(initial, operations), rest')
  }

  /** The `MANY` loop of `additionExpression`. */
  function AdditiveOperations<V>(b: Backend<V>, env: Env, ts: seq<Token>, outside: bool): (r: Parse<seq<(Token, V)>>)
    ensures r.Parsed? ==> IsSuffix(r.rest, ts)
    decreases |ts|, 5
  {
    if NextIs(ts, AdditiveOperator) then
      match Multiplicative(b, env, ts[1..], outside)
      case Failed(f) => Failed(f)
      case Parsed(rhs, rest) =>
        match AdditiveOperations(b, env, rest, outside)
        case Failed(f) => Failed(f)
        case Parsed(operations, rest') =>
          StepSuffix(rest', rest, ts);
          Parsed([(ts[0], rhs)] + operations, rest')
    else Parsed([], ts)
  }

  /** `multiplicationExpression`: an atomic term followed by any number of
      (MultiplicativeOperator, atomic term) pairs, handed to the backend's `math`. */
  function Multiplicative<V>(b: Backend<V>, env: Env, ts: seq<Token>, outside: bool): (r: Parse<V>)
    ensures r.Parsed? ==> IsStrictSuffix(r.rest, ts)
    decreases |ts|, 4
  {
    match Atomic(b, env, ts, outside)
    case Failed(f) => Failed(f)
    case Parsed(initial, rest) =>
      match MultiplicativeOperations(b, env, rest, outside)
      case Failed(f) => Failed(f)
      case Parsed(operations, rest') =>
        SuffixChain(rest', rest, ts);
        Parsed(b.math(initial, operations), rest')
  }

  /** The `MANY` loop of `multiplicationExpression`. */
  function MultiplicativeOperations<V>(b: Backend<V>, env: Env, ts: seq<Token>, outside: bool): (r: Parse<seq<(Token, V)>>)
    ensures r.Parsed? ==> IsSuffix(r.rest, ts)
    decreases |ts|, 4
  {
    if NextIs(ts, MultiplicativeOperator) then
      match Atomic(b, env, ts[1..], outside)
      case Failed(f) => Failed(f)
      case Parsed(rhs, rest) =>
        match MultiplicativeOperations(b, env, rest, outside)
        case Failed(f) => Failed(f)
        case Parsed(operations, rest') =>
          StepSuffix(rest', rest, ts);
          Parsed([(ts[0], rhs)] + operations, rest')
    else Parsed([], ts)
  }

  /** `atomicExpression`: the gated alternation. With the flag set, an aggregation or metric
      call; with it clear, a field; under either flag, a parenthesised expression or a number.
      The lookahead tells a metric call from a field by the `(` after the name, so with the flag
      set a name not followed by `(` matches no alternative. */
  function Atomic<V>(b: Backend<V>, env: Env, ts: seq<Token>, outside: bool): (r: Parse<V>)
    ensures r.Parsed? ==> IsStrictSuffix(r.rest, ts)
    decreases |ts|, 3
  {
    if |ts| == 0 then Failed(SyntaxFailure(NoViableAlternative(None)))
    else if outside && (ts[0].kind == Aggregation || (ts[0].kind == Identifier && NextIs(ts[1..], LParen))) then
      AggregationOrMetric(b, env, ts)
    else if !outside && (ts[0].kind == StringLiteral || ts[0].kind == Identifier) then
      FieldExpression(b, env, ts)
    else if ts[0].kind == LParen then
      Parenthesis(b, env, ts, outside)
    else if ts[0].kind == NumberLiteral then
      Parsed(b.numberLiteral(ts[0]), ts[1..])
    else Failed(SyntaxFailure(NoViableAlternative(Some(ts[0]))))
  }

  /** `aggregationOrMetricExpression`. */
  function AggregationOrMetric<V>(b: Backend<V>, env: Env, ts: seq<Token>): (r: Parse<V>)
    ensures r.Parsed? ==> IsStrictSuffix(r.rest, ts)
    decreases |ts|, 2
  {
    if NextIs(ts, Aggregation) then AggregationExpression(b, env, ts)
    else if NextIs(ts, Identifier) then MetricExpression(b, env, ts)
    else Failed(SyntaxFailure(NoViableAlternative(Peek(ts))))
  }

  /** `aggregationExpression`: an aggregation keyword, `(`, comma-separated arguments that are
      always parsed with the flag clear, and `)`. */
  function AggregationExpression<V>(b: Backend<V>, env: Env, ts: seq<Token>): (r: Parse<V>)
    ensures r.Parsed? ==> IsStrictSuffix(r.rest, ts)
    decreases |ts|, 1
  {
    if !NextIs(ts, Aggregation) then Mismatch(Aggregation, ts)
    else if !NextIs(ts[1..], LParen) then Mismatch(LParen, ts[1..])
    else
      match Arguments(b, env, ts[2..])
      case Failed(f) => Failed(f)
      case Parsed(args, rest) =>
        if !NextIs(rest, RParen) then Mismatch(RParen, rest)
        else
          SuffixTransitive(rest, ts[2..], ts);
          Parsed(b.aggregation(env, ts[0], ts[1], args, rest[0]), rest[1..])
  }

  /** `metricExpression`: an identifier, `(` and `)`, resolved against the metrics by their
      formatted name. */
  function MetricExpression<V>(b: Backend<V>, env: Env, ts: seq<Token>): (r: Parse<V>)
    ensures r.Parsed? ==> IsStrictSuffix(r.rest, ts)
  {
    if !NextIs(ts, Identifier) then Mismatch(Identifier, ts)
    else if !NextIs(ts[1..], LParen) then Mismatch(LParen, ts[1..])
    else if !NextIs(ts[2..], RParen) then Mismatch(RParen, ts[2..])
    else
      var metricName := b.identifier(ts[0]);
      match MetricForName(env.table, env.fmt, b.toName(env, metricName))
      case Some(metric) => Parsed(b.metricReference(metricName, metric.id), ts[3..])
      case None =>
        match b.unknownMetric(metricName, ts[1], ts[2])
        case Built(v) => Parsed(v, ts[3..])
        case Throws(message) => Failed(Thrown(message))
  }

  /** `fieldExpression`: a string literal or identifier, resolved to a field, else to a custom
      expression, else handed to the backend's `unknownField`. */
  function FieldExpression<V>(b: Backend<V>, env: Env, ts: seq<Token>): (r: Parse<V>)
    ensures r.Parsed? ==> IsStrictSuffix(r.rest, ts)
  {
    if |ts| == 0 then Failed(SyntaxFailure(NoViableAlternative(None)))
    else if ts[0].kind == StringLiteral || ts[0].kind == Identifier then
      var fieldName := if ts[0].kind == StringLiteral then b.stringLiteral(env, ts[0]) else b.identifier(ts[0]);
      match ResolveFieldName(env.table, env.customFields, b.toName(env, fieldName))
      case ToField(field) => Parsed(b.fieldReference(fieldName, field.id), ts[1..])
      case ToExpression(expression) => Parsed(b.expressionReference(fieldName, expression), ts[1..])
      case Unresolved =>
        match b.unknownField(fieldName)
        case Built(v) => Parsed(v, ts[1..])
        case Throws(message) => Failed(Thrown(message))
    else Failed(SyntaxFailure(NoViableAlternative(Some(ts[0]))))
  }

  /** `parenthesisExpression`: `(`, an expression under the same flag, `)`. */
  function Parenthesis<V>(b: Backend<V>, env: Env, ts: seq<Token>, outside: bool): (r: Parse<V>)
    ensures r.Parsed? ==> IsStrictSuffix(r.rest, ts)
    decreases |ts|, 1
  {
    if !NextIs(ts, LParen) then Mismatch(LParen, ts)
    else
      match Expression(b, env, ts[1..], outside)
      case Failed(f) => Failed(f)
      case Parsed(v, rest) =>
        if !NextIs(rest, RParen) then Mismatch(RParen, rest)
        else
          SuffixTransitive(rest, ts[1..], ts);
          Parsed(b.parens(ts[0], v, rest[0]), rest[1..])
  }

  /** The `MANY_SEP` of `aggregationExpression`: zero arguments unless the next token can
      start an expression; then arguments separated by commas. */
  function Arguments<V>(b: Backend<V>, env: Env, ts: seq<Token>): (r: Parse<SepList<V>>)
    ensures r.Parsed? ==> IsSuffix(r.rest, ts)
    ensures r.Parsed? ==> if |r.value.values| == 0 then |r.value.separators| == 0
                          else |r.value.separators| + 1 == |r.value.values|
    decreases |ts|, 7
  {
    if |ts| > 0 && StartsExpression(ts[0].kind) then
      match Expression(b, env, ts, false)
      case Failed(f) => Failed(f)
      case Parsed(v, rest) =>
        match MoreArguments(b, env, rest)
        case Failed(f) => Failed(f)
        case Parsed(more, rest') =>
          SuffixChain(rest', rest, ts);
          Parsed(SepList([v] + more.values, more.separators), rest')
    else Parsed(SepList([], []), ts)
  }

  /** The repetition of `MANY_SEP` after its first item: a comma, then a mandatory argument. */
  function MoreArguments<V>(b: Backend<V>, env: Env, ts: seq<Token>): (r: Parse<SepList<V>>)
    ensures r.Parsed? ==> IsSuffix(r.rest, ts)
    ensures r.Parsed? ==> |r.value.separators| == |r.value.values|
    decreases |ts|, 7
  {
    if NextIs(ts, Comma) then
      match Expression(b, env, ts[1..], false)
      case Failed(f) => Failed(f)
      case Parsed(v, rest) =>
        match MoreArguments(b, env, rest)
        case Failed(f) => Failed(f)
        case Parsed(more, rest') =>
          StepSuffix(rest', rest, ts);
          Parsed(SepList([v] + more.values, [ts[0]] + more.separators), rest')
    else Parsed(SepList([], []), ts)
  }

  /** The rule `parser[startRule]()` invokes: `expression` runs the additive rule with the flag
      clear, `aggregation` with it set. */
  function EntryParse<V>(b: Backend<V>, env: Env, ts: seq<Token>, rule: StartRule): (r: Parse<V>)
    ensures r.Parsed? ==> IsStrictSuffix(r.rest, ts)
  {
    match rule
    case ExpressionRule => Expression(b, env, ts, false)
    case AggregationRule => Additive(b, env, ts, true)
  }

  /** What `run` hands back: `[]` for an empty source, the value, the parser's error list, or
      an error thrown by a callback. */
  datatype Outcome<V> = EmptySource | Value(value: V) | SyntaxErrors(errors: seq<SyntaxError>) | Raised(message: string)

  /** One top-level rule invocation: the first recognition error stops the parse; a
      successful parse that leaves tokens over reports them. */
  function Invoke<V>(b: Backend<V>, env: Env, ts: seq<Token>, rule: StartRule): (r: Outcome<V>)
    ensures !r.EmptySource?
    ensures r.Value? <==> EntryParse(b, env, ts, rule).Parsed? && EntryParse(b, env, ts, rule).rest == []
    ensures r.Value? ==> r.value == EntryParse(b, env, ts, rule).value
    ensures r.SyntaxErrors? ==> |r.errors| == 1
    ensures r.Raised? <==> EntryParse(b, env, ts, rule).Failed? && EntryParse(b, env, ts, rule).failure.Thrown?
  {
    match EntryParse(b, env, ts, rule)
    case Failed(SyntaxFailure(e)) => SyntaxErrors([e])
    case Failed(Thrown(message)) => Raised(message)
    case Parsed(v, rest) =>
      if rest == [] then Value(v) else SyntaxErrors([NotAllInputParsed(rest[0])])
  }

  /** `run`: an empty source gives `[]` without parsing; otherwise the source is lexed (lexing
      errors are not consulted) and parsed from the start rule; any parser error is thrown. */
  function Run<V>(b: Backend<V>, env: Env, source: string, rule: StartRule, lex: string -> LexResult): (r: Outcome<V>)
    ensures r.EmptySource? <==> source == ""
    ensures r.Value? ==> EntryParse(b, env, lex(source).tokens, rule).Parsed?
                         && EntryParse(b, env, lex(source).tokens, rule).rest == []
                         && r.value == EntryParse(b, env, lex(source).tokens, rule).value
    ensures source != "" && EntryParse(b, env, lex(source).tokens, rule).Failed? ==> !r.Value?
  {
    if source == "" then EmptySource
    else Invoke(b, env, lex(source).tokens, rule)
  }
}
