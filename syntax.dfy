/** The syntax backend: callbacks that build `{type, children}` trees keeping the tokens, and
    that represent unknown names as nodes instead of throwing. */
module SyntaxTree {
  import opened Tokens
  import opened Metadata
  import opened Grammar

  datatype NodeType =
    | MathNode | AggregationNode | MetricNode | FieldNode | ExpressionReferenceNode
    | UnknownNode | IdentifierNode | StringNode | NumberNode | GroupNode

  /** The `type` string the source gives each node. */
  function TypeName(t: NodeType): string {
    match t
    case MathNode => "math"
    case AggregationNode => "aggregation"
    case MetricNode => "metric"
    case FieldNode => "field"
    case ExpressionReferenceNode => "expression-reference"
    case UnknownNode => "unknown"
    case IdentifierNode => "identifier"
    case StringNode => "string"
    case NumberNode => "number"
    case GroupNode => "group"
  }

  /** A child of a syntax node: a `token(...)` wrapper with text and offsets, a lexer token
      pushed as it is, the wrapper `token(...)` makes of a syntax node (all of its fields
      undefined), or a nested node. */
  datatype SyntaxNode =
    | TokenLeaf(text: string, start: int, end: int)
    | RawToken(token: Token)
    | UndefinedLeaf
    | Node(nodeType: NodeType, children: seq<SyntaxNode>)

  /** `token(t)` for a lexer token. */
  function Wrap(t: Token): SyntaxNode {
    TokenLeaf(t.image, t.start, t.end)
  }

  /** `token(x)` for an arbitrary child: it reads `image`, `startOffset` and `endOffset`, which
      only a lexer token has. */
  function TokenOf(x: SyntaxNode): SyntaxNode {
    if x.RawToken? then Wrap(x.token) else UndefinedLeaf
  }

  /** The children of the operations of a `math` node: each operator token, then its operand. */
  function OperationChildren(operations: seq<(Token, SyntaxNode)>): (r: seq<SyntaxNode>)
    ensures |r| == 2 * |operations|
    ensures forall i :: 0 <= i < |operations| ==> r[2 * i] == Wrap(operations[i].0) && r[2 * i + 1] == operations[i].1
  {
    if |operations| == 0 then []
    else
      var tail := OperationChildren(operations[1..]);
      assert forall i :: 1 <= i < |operations| ==> operations[1..][i - 1] == operations[i];
      [Wrap(operations[0].0), operations[0].1] + tail
  }

  /** `_math`: one `math` node per precedence level, even with no operators; its children are
      the first operand followed by alternating operator tokens and operands. */
  function MathTree(initial: SyntaxNode, operations: seq<(Token, SyntaxNode)>): (r: SyntaxNode)
    ensures r.Node? && r.nodeType == MathNode
    ensures |r.children| == 1 + 2 * |operations| && r.children[0] == initial
    ensures forall i :: 0 <= i < |operations| ==>
              r.children[2 * i + 1] == Wrap(operations[i].0) && r.children[2 * i + 2] == operations[i].1
  {
    Node(MathNode, [initial] + OperationChildren(operations))
  }

  /** The arguments of an aggregation with the separator tokens between them, as the index loop
      of `_aggregation` lays them out: each value, then the separator of the same index if any. */
  function Interleave(values: seq<SyntaxNode>, separators: seq<Token>): seq<SyntaxNode>
    decreases |values|
  {
    if |values| == 0 then []
    else
      var n := |values| - 1;
      Interleave(values[..n], separators) + [values[n]] + (if n < |separators| then [RawToken(separators[n])] else [])
  }

  /** The index loop of `_aggregation` that fills `argsAndCommas`. */
  method InterleaveArgs(values: seq<SyntaxNode>, separators: seq<Token>) returns (argsAndCommas: seq<SyntaxNode>)
    ensures argsAndCommas == Interleave(values, separators)
  {
    argsAndCommas := [];
    var i := 0;
    while i < |values|
      invariant 0 <= i <= |values|
      invariant argsAndCommas == Interleave(values[..i], separators)
    {
      argsAndCommas := argsAndCommas + [values[i]];
      if i < |separators| {
        argsAndCommas := argsAndCommas + [RawToken(separators[i])];
      }
      assert values[..i + 1][..i] == values[..i];
      i := i + 1;
    }
    assert values[..i] == values;
  }

  /** With at least as many separators as values, every value is followed by its separator. */
  lemma {:induction false} InterleaveFull(values: seq<SyntaxNode>, separators: seq<Token>)
    requires |values| <= |separators|
    ensures |Interleave(values, separators)| == 2 * |values|
    ensures forall i :: 0 <= i < |values| ==>
              Interleave(values, separators)[2 * i] == values[i]
              && Interleave(values, separators)[2 * i + 1] == RawToken(separators[i])
  {
    if |values| > 0 {
      var n := |values| - 1;
      InterleaveFull(values[..n], separators);
    }
  }

  /** For what `MANY_SEP` returns (one separator fewer than values, or nothing at all), the
      arguments sit at even positions and the separators between them at odd positions. */
  lemma InterleaveLayout(values: seq<SyntaxNode>, separators: seq<Token>)
    requires if |values| == 0 then |separators| == 0 else |separators| + 1 == |values|
    ensures |Interleave(values, separators)| == |values| + |separators|
    ensures forall i :: 0 <= i < |values| ==> Interleave(values, separators)[2 * i] == values[i]
    ensures forall i :: 0 <= i < |separators| ==> Interleave(values, separators)[2 * i + 1] == RawToken(separators[i])
  {
    if |values| > 0 {
      var n := |values| - 1;
      InterleaveFull(values[..n], separators);
    }
  }

  /** `_aggregation`: the keyword and `(` tokens, the arguments with their separators, `)`. */
  function AggregationTree(env: Env, aggregation: Token, lParen: Token, args: SepList<SyntaxNode>, rParen: Token): SyntaxNode {
    Node(AggregationNode, [Wrap(aggregation), Wrap(lParen)] + Interleave(args.values, args.separators) + [Wrap(rParen)])
  }

  /** `_metricReference`: the name only; the parentheses are not kept. */
  function MetricTree(metricName: SyntaxNode, metricId: int): SyntaxNode {
    Node(MetricNode, [metricName])
  }

  function FieldTree(fieldName: SyntaxNode, fieldId: int): SyntaxNode {
    Node(FieldNode, [fieldName])
  }

  /** `_expressionReference` applies `token()` to the name node. */
  function ExpressionReferenceTree(fieldName: SyntaxNode, expression: CustomField): SyntaxNode {
    Node(ExpressionReferenceNode, [TokenOf(fieldName)])
  }

  function UnknownFieldTree(fieldName: SyntaxNode): Built<SyntaxNode> {
    Built(Node(UnknownNode, [fieldName]))
  }

  /** `_unknownMetric`: the name only; the parentheses are not kept. */
  function UnknownMetricTree(metricName: SyntaxNode, lParen: Token, rParen: Token): Built<SyntaxNode> {
    Built(Node(UnknownNode, [metricName]))
  }

  function IdentifierTree(identifier: Token): SyntaxNode {
    Node(IdentifierNode, [Wrap(identifier)])
  }

  function StringLiteralTree(env: Env, stringLiteral: Token): SyntaxNode {
    Node(StringNode, [Wrap(stringLiteral)])
  }

  function NumberLiteralTree(numberLiteral: Token): SyntaxNode {
    Node(NumberNode, [Wrap(numberLiteral)])
  }

  function GroupTree(lParen: Token, expValue: SyntaxNode, rParen: Token): SyntaxNode {
    Node(GroupNode, [Wrap(lParen), expValue, Wrap(rParen)])
  }

  /** `_toString`: a string node's text decoded with `JSON.parse`, an identifier node's text.
      Nothing else reaches it from the grammar; any other value stands for no name here. */
  function NodeName(env: Env, x: SyntaxNode): string {
    if x.Node? && |x.children| > 0 && x.children[0].TokenLeaf? then
      if x.nodeType == StringNode then env.fmt.unescape(x.children[0].text)
      else if x.nodeType == IdentifierNode then x.children[0].text
      else ""
    else ""
  }

  const SyntaxBackend: Backend<SyntaxNode> := Grammar.Backend(
    MathTree, AggregationTree, MetricTree, FieldTree, ExpressionReferenceTree,
    UnknownFieldTree, UnknownMetricTree, IdentifierTree, StringLiteralTree, NumberLiteralTree,
    GroupTree, NodeName)

  /** What `_expressionReference` evidently means to build: the name node itself, as
      `_fieldReference` keeps it. */
  function CorrectedExpressionReferenceTree(fieldName: SyntaxNode, expression: CustomField): SyntaxNode {
    Node(ExpressionReferenceNode, [fieldName])
  }

  /** The syntax backend with the corrected expression reference. */
  const CorrectedSyntaxBackend: Backend<SyntaxNode> := SyntaxBackend.(expressionReference := CorrectedExpressionReferenceTree)

  /** The syntax backend as written, or the corrected one. */
  function TreeBackend(corrected: bool): Backend<SyntaxNode> {
    if corrected then CorrectedSyntaxBackend else SyntaxBackend
  }

  /** `parse` with the corrected expression reference. */
  function CorrectedParseTree(env: Env, source: string, rule: StartRule, lex: string -> LexResult): Outcome<SyntaxNode> {
    Run(CorrectedSyntaxBackend, env, source, rule, lex)
  }

  /** `parse`. */
  function ParseTree(env: Env, source: string, rule: StartRule, lex: string -> LexResult): Outcome<SyntaxNode> {
    Run(SyntaxBackend, env, source, rule, lex)
  }
}
