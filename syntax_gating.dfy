/** The aggregation/field exclusion, stated on the trees the syntax backend builds (as written,
    or with the corrected expression reference), and the fact that this backend never throws. */
module SyntaxGating {
  import opened Tokens
  import opened Grammar
  import opened SyntaxTree
  import opened Metadata

  /** Which node types a flag admits: aggregation and metric calls only with the flag set,
      field and expression references only with it clear. */
  predicate Admits(t: NodeType, outside: bool) {
    (t == AggregationNode || t == MetricNode ==> outside)
    && (t == FieldNode || t == ExpressionReferenceNode ==> !outside)
  }

  /** Every node is admitted by the flag in force at its position; inside an aggregation's
      children the flag is clear. */
  predicate Gated(n: SyntaxNode, outside: bool)
    decreases n
  {
    match n
    case Node(t, cs) =>
      Admits(t, outside)
      && forall c :: c in cs ==> Gated(c, if t == AggregationNode then false else outside)
    case _ => true
  }

  /** A parse that worked respects the gates, and none was stopped by a thrown error. */
  predicate WellGated(r: Parse<SyntaxNode>, outside: bool) {
    && (r.Failed? ==> r.failure.SyntaxFailure?)
    && (r.Parsed? ==> Gated(r.value, outside))
  }

  predicate OperationsGated(r: Parse<seq<(Token, SyntaxNode)>>, outside: bool) {
    && (r.Failed? ==> r.failure.SyntaxFailure?)
    && (r.Parsed? ==> forall p :: p in r.value ==> Gated(p.1, outside))
  }

  predicate ArgumentsGated(r: Parse<SepList<SyntaxNode>>) {
    && (r.Failed? ==> r.failure.SyntaxFailure?)
    && (r.Parsed? ==> forall v :: v in r.value.values ==> Gated(v, false))
  }

  lemma MathTreeGated(initial: SyntaxNode, operations: seq<(Token, SyntaxNode)>, outside: bool)
    requires Gated(initial, outside)
    requires forall p :: p in operations ==> Gated(p.1, outside)
    ensures Gated(MathTree(initial, operations), outside)
  {
    var tail := OperationChildren(operations);
    OperationChildrenGated(operations, outside);
    assert MathTree(initial, operations).children == [initial] + tail;
    assert forall c :: c in [initial] + tail ==> c == initial || c in tail;
  }

  /** The operator tokens and operands of gated operations are gated. */
  lemma {:induction false} OperationChildrenGated(operations: seq<(Token, SyntaxNode)>, outside: bool)
    requires forall p :: p in operations ==> Gated(p.1, outside)
    ensures forall c :: c in OperationChildren(operations) ==> Gated(c, outside)
    decreases |operations|
  {
    if |operations| > 0 {
      var tail := operations[1..];
      assert forall p :: p in tail ==> p in operations;
      OperationChildrenGated(tail, outside);
      assert operations[0] in operations;
      var head := [Wrap(operations[0].0), operations[0].1];
      assert OperationChildren(operations) == head + OperationChildren(tail);
      assert forall c :: c in head + OperationChildren(tail) ==> c in head || c in OperationChildren(tail);
    }
  }

  /** Every element of an interleaving is one of the values or a separator token. */
  lemma {:induction false} InterleaveElements(values: seq<SyntaxNode>, separators: seq<Token>)
    ensures forall x :: x in Interleave(values, separators) ==> x in values || x.RawToken?
    decreases |values|
  {
    if |values| > 0 {
      var n := |values| - 1;
      InterleaveElements(values[..n], separators);
      assert forall x :: x in values[..n] ==> x in values;
    }
  }

  lemma AggregationTreeGated(env: Env, aggregation: Token, lParen: Token, args: SepList<SyntaxNode>, rParen: Token)
    requires forall v :: v in args.values ==> Gated(v, false)
    ensures Gated(AggregationTree(env, aggregation, lParen, args, rParen), true)
  {
    InterleaveElements(args.values, args.separators);
  }

  lemma {:induction false} ExpressionGated(env: Env, ts: seq<Token>, outside: bool, corrected: bool)
    ensures WellGated(Expression(TreeBackend(corrected), env, ts, outside), outside)
    decreases |ts|, 6
  {
    AdditiveGated(env, ts, outside, corrected);
  }

  lemma {:induction false} AdditiveGated(env: Env, ts: seq<Token>, outside: bool, corrected: bool)
    ensures WellGated(Additive(TreeBackend(corrected), env, ts, outside), outside)
    decreases |ts|, 5
  {
    var m := Multiplicative(TreeBackend(corrected), env, ts, outside);
    MultiplicativeGated(env, ts, outside, corrected);
    if m.Parsed? {
      var ops := AdditiveOperations(TreeBackend(corrected), env, m.rest, outside);
      AdditiveOperationsGated(env, m.rest, outside, corrected);
      if ops.Parsed? {
        MathTreeGated(m.value, ops.value, outside);
      }
    }
  }

  lemma {:induction false} AdditiveOperationsGated(env: Env, ts: seq<Token>, outside: bool, corrected: bool)
    ensures OperationsGated(AdditiveOperations(TreeBackend(corrected), env, ts, outside), outside)
    decreases |ts|, 5
  {
    if NextIs(ts, AdditiveOperator) {
      var m := Multiplicative(TreeBackend(corrected), env, ts[1..], outside);
      MultiplicativeGated(env, ts[1..], outside, corrected);
      if m.Parsed? {
        AdditiveOperationsGated(env, m.rest, outside, corrected);
      }
    }
  }

  lemma {:induction false} MultiplicativeGated(env: Env, ts: seq<Token>, outside: bool, corrected: bool)
    ensures WellGated(Multiplicative(TreeBackend(corrected), env, ts, outside), outside)
    decreases |ts|, 4
  {
    var a := Atomic(TreeBackend(corrected), env, ts, outside);
    AtomicGated(env, ts, outside, corrected);
    if a.Parsed? {
      var ops := MultiplicativeOperations(TreeBackend(corrected), env, a.rest, outside);
      MultiplicativeOperationsGated(env, a.rest, outside, corrected);
      if ops.Parsed? {
        MathTreeGated(a.value, ops.value, outside);
      }
    }
  }

  lemma {:induction false} MultiplicativeOperationsGated(env: Env, ts: seq<Token>, outside: bool, corrected: bool)
    ensures OperationsGated(MultiplicativeOperations(TreeBackend(corrected), env, ts, outside), outside)
    decreases |ts|, 4
  {
    if NextIs(ts, MultiplicativeOperator) {
      var a := Atomic(TreeBackend(corrected), env, ts[1..], outside);
      AtomicGated(env, ts[1..], outside, corrected);
      if a.Parsed? {
        MultiplicativeOperationsGated(env, a.rest, outside, corrected);
      }
    }
  }

  lemma {:induction false} AtomicGated(env: Env, ts: seq<Token>, outside: bool, corrected: bool)
    ensures WellGated(Atomic(TreeBackend(corrected), env, ts, outside), outside)
    decreases |ts|, 3
  {
    if |ts| > 0 {
      if outside && (ts[0].kind == Aggregation || ts[0].kind == Identifier) {
        AggregationOrMetricGated(env, ts, corrected);
      } else if !outside && (ts[0].kind == StringLiteral || ts[0].kind == Identifier) {
        FieldExpressionGated(env, ts, corrected);
      } else if ts[0].kind == LParen {
        ParenthesisGated(env, ts, outside, corrected);
      }
    }
  }

  lemma {:induction false} AggregationOrMetricGated(env: Env, ts: seq<Token>, corrected: bool)
    ensures WellGated(AggregationOrMetric(TreeBackend(corrected), env, ts), true)
    decreases |ts|, 2
  {
    if NextIs(ts, Aggregation) {
      AggregationExpressionGated(env, ts, corrected);
    } else if NextIs(ts, Identifier) {
      MetricExpressionGated(env, ts, corrected);
    }
  }

  lemma {:induction false} AggregationExpressionGated(env: Env, ts: seq<Token>, corrected: bool)
    ensures WellGated(AggregationExpression(TreeBackend(corrected), env, ts), true)
    decreases |ts|, 1
  {
    if NextIs(ts, Aggregation) && NextIs(ts[1..], LParen) {
      var args := Arguments(TreeBackend(corrected), env, ts[2..]);
      ArgumentsGatedLemma(env, ts[2..], corrected);
      if args.Parsed? && NextIs(args.rest, RParen) {
        AggregationTreeGated(env, ts[0], ts[1], args.value, args.rest[0]);
      }
    }
  }

  lemma MetricExpressionGated(env: Env, ts: seq<Token>, corrected: bool)
    ensures WellGated(MetricExpression(TreeBackend(corrected), env, ts), true)
  {
    var b := TreeBackend(corrected);
    if NextIs(ts, Identifier) && NextIs(ts[1..], LParen) && NextIs(ts[2..], RParen) {
      var metricName := b.identifier(ts[0]);
      NameGated(env, ts[0], corrected, true);
      match MetricForName(env.table, env.fmt, b.toName(env, metricName))
      case Some(metric) => MetricNodesGated(metricName, metric.id, ts[1], ts[2], corrected);
      case None => MetricNodesGated(metricName, 0, ts[1], ts[2], corrected);
    }
  }

  /** Both metric nodes keep only the name, so they are gated wherever the name is. */
  lemma MetricNodesGated(metricName: SyntaxNode, metricId: int, lParen: Token, rParen: Token, corrected: bool)
    requires Gated(metricName, true)
    ensures Gated(TreeBackend(corrected).metricReference(metricName, metricId), true)
    ensures TreeBackend(corrected).unknownMetric(metricName, lParen, rParen).Built?
    ensures Gated(TreeBackend(corrected).unknownMetric(metricName, lParen, rParen).value, true)
  {
    assert MetricTree(metricName, metricId).children == [metricName];
    assert UnknownMetricTree(metricName, lParen, rParen).value.children == [metricName];
  }

  lemma FieldExpressionGated(env: Env, ts: seq<Token>, corrected: bool)
    ensures WellGated(FieldExpression(TreeBackend(corrected), env, ts), false)
  {
    var b := TreeBackend(corrected);
    if |ts| > 0 && (ts[0].kind == StringLiteral || ts[0].kind == Identifier) {
      var fieldName := if ts[0].kind == StringLiteral then b.stringLiteral(env, ts[0]) else b.identifier(ts[0]);
      NameGated(env, ts[0], corrected, false);
      match ResolveFieldName(env.table, env.customFields, b.toName(env, fieldName))
      case ToField(field) => assert Gated(b.fieldReference(fieldName, field.id), false);
      case ToExpression(expression) => ReferenceGated(fieldName, expression, corrected);
      case Unresolved => assert Gated(b.unknownField(fieldName).value, false);
    }
  }

  /** A name node holds only its token. */
  lemma NameGated(env: Env, t: Token, corrected: bool, outside: bool)
    ensures Gated(TreeBackend(corrected).stringLiteral(env, t), outside)
    ensures Gated(TreeBackend(corrected).identifier(t), outside)
  {
    assert StringLiteralTree(env, t).children == [Wrap(t)];
    assert IdentifierTree(t).children == [Wrap(t)];
  }

  /** An expression reference over a gated name is gated where fields are admitted. */
  lemma ReferenceGated(fieldName: SyntaxNode, expression: CustomField, corrected: bool)
    requires Gated(fieldName, false)
    ensures Gated(TreeBackend(corrected).expressionReference(fieldName, expression), false)
  {
    if corrected {
      assert CorrectedExpressionReferenceTree(fieldName, expression).children == [fieldName];
    } else {
      assert ExpressionReferenceTree(fieldName, expression).children == [TokenOf(fieldName)];
    }
  }

  lemma {:induction false} ParenthesisGated(env: Env, ts: seq<Token>, outside: bool, corrected: bool)
    ensures WellGated(Parenthesis(TreeBackend(corrected), env, ts, outside), outside)
    decreases |ts|, 1
  {
    if NextIs(ts, LParen) {
      ExpressionGated(env, ts[1..], outside, corrected);
    }
  }

  lemma {:induction false} ArgumentsGatedLemma(env: Env, ts: seq<Token>, corrected: bool)
    ensures ArgumentsGated(Arguments(TreeBackend(corrected), env, ts))
    decreases |ts|, 7
  {
    if |ts| > 0 && StartsExpression(ts[0].kind) {
      var e := Expression(TreeBackend(corrected), env, ts, false);
      ExpressionGated(env, ts, false, corrected);
      if e.Parsed? {
        MoreArgumentsGated(env, e.rest, corrected);
      }
    }
  }

  lemma {:induction false} MoreArgumentsGated(env: Env, ts: seq<Token>, corrected: bool)
    ensures ArgumentsGated(MoreArguments(TreeBackend(corrected), env, ts))
    decreases |ts|, 7
  {
    if NextIs(ts, Comma) {
      var e := Expression(TreeBackend(corrected), env, ts[1..], false);
      ExpressionGated(env, ts[1..], false, corrected);
      if e.Parsed? {
        MoreArgumentsGated(env, e.rest, corrected);
      }
    }
  }

  /** `parse` never throws, and every tree it returns respects the gates of its start rule:
      an `aggregation` tree has aggregation and metric calls only outside any aggregation and
      fields only inside one; an `expression` tree has no aggregation or metric call at all. */
  lemma ParseTreeIsGated(env: Env, source: string, rule: StartRule, lex: string -> LexResult)
    ensures !ParseTree(env, source, rule, lex).Raised?
    ensures ParseTree(env, source, rule, lex).Value? ==> Gated(ParseTree(env, source, rule, lex).value, rule == AggregationRule)
  {
    var ts := lex(source).tokens;
    match rule
    case ExpressionRule => ExpressionGated(env, ts, false, false);
    case AggregationRule => AdditiveGated(env, ts, true, false);
  }

  /** Some node of type `t` occurs in `n`. */
  predicate Contains(n: SyntaxNode, t: NodeType)
    decreases n
  {
    n.Node? && (n.nodeType == t || exists c :: c in n.children && Contains(c, t))
  }

  /** A field or expression reference that is not below an aggregation node. */
  predicate FieldOutsideAggregation(n: SyntaxNode)
    decreases n
  {
    && n.Node?
    && n.nodeType != AggregationNode
    && (n.nodeType == FieldNode || n.nodeType == ExpressionReferenceNode
        || exists c :: c in n.children && FieldOutsideAggregation(c))
  }

  /** With the flag clear there is no aggregation and no metric anywhere below: in particular
      aggregations do not nest. */
  lemma {:induction false} ClearFlagExcludesAggregations(n: SyntaxNode)
    requires Gated(n, false)
    ensures !Contains(n, AggregationNode) && !Contains(n, MetricNode)
    decreases n
  {
    if n.Node? {
      forall c | c in n.children
        ensures !Contains(c, AggregationNode) && !Contains(c, MetricNode)
      {
        ClearFlagExcludesAggregations(c);
      }
    }
  }

  /** With the flag set, fields and expression references occur only inside an aggregation's
      arguments. An `unknown` node is not covered: the syntax backend builds one both for an
      unresolved field name and for an unknown metric, and `Admits` cannot tell the two apart.
      Under the set flag the grammar only ever builds the metric kind. */
  lemma {:induction false} SetFlagExcludesBareFields(n: SyntaxNode)
    requires Gated(n, true)
    ensures !FieldOutsideAggregation(n)
    decreases n
  {
    if n.Node? && n.nodeType != AggregationNode {
      forall c | c in n.children
        ensures !FieldOutsideAggregation(c)
      {
        SetFlagExcludesBareFields(c);
      }
    }
  }

  /** The arguments of an aggregation contain no aggregation and no metric call. */
  lemma AggregationArgumentsAreFlat(n: SyntaxNode, outside: bool)
    requires Gated(n, outside) && n.Node? && n.nodeType == AggregationNode
    ensures forall c :: c in n.children ==> !Contains(c, AggregationNode) && !Contains(c, MetricNode)
  {
    forall c | c in n.children
      ensures !Contains(c, AggregationNode) && !Contains(c, MetricNode)
    {
      ClearFlagExcludesAggregations(c);
    }
  }
}
