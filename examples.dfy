/** Worked inputs for both backends: short token sequences, with the metadata they resolve
    against stated as requirements on the names. */
module Examples {
  import opened Wrappers
  import opened Tokens
  import opened Metadata
  import opened Mbql
  import opened Grammar
  import opened Compiler
  import opened SyntaxTree

  /** A number not followed by a multiplicative operator is a whole multiplicative term. */
  lemma NumberTerm(env: Env, ts: seq<Token>, outside: bool)
    requires |ts| > 0 && ts[0].kind == NumberLiteral && !NextIs(ts[1..], MultiplicativeOperator)
    ensures Multiplicative(MbqlBackend, env, ts, outside) == Parsed(MNumber(ts[0].image), ts[1..])
  {
    assert Atomic(MbqlBackend, env, ts, outside) == Parsed(MNumber(ts[0].image), ts[1..]);
    assert MultiplicativeOperations(MbqlBackend, env, ts[1..], outside) == Parsed([], ts[1..]);
  }

  /** One round of the additive `MANY` loop. */
  lemma AdditiveStep(env: Env, ts: seq<Token>, rhs: MbqlExpr, mid: seq<Token>, operations: seq<(Token, MbqlExpr)>, rest: seq<Token>)
    requires NextIs(ts, AdditiveOperator)
    requires Multiplicative(MbqlBackend, env, ts[1..], false) == Parsed(rhs, mid)
    requires AdditiveOperations(MbqlBackend, env, mid, false) == Parsed(operations, rest)
    ensures AdditiveOperations(MbqlBackend, env, ts, false) == Parsed([(ts[0], rhs)] + operations, rest)
  {
  }

  /** One round of the additive loop whose right-hand side is a lone number. */
  lemma NumberAddition(env: Env, ts: seq<Token>, operations: seq<(Token, MbqlExpr)>, rest: seq<Token>)
    requires |ts| >= 2 && ts[0].kind == AdditiveOperator && ts[1].kind == NumberLiteral
    requires !NextIs(ts[2..], MultiplicativeOperator)
    requires AdditiveOperations(MbqlBackend, env, ts[2..], false) == Parsed(operations, rest)
    ensures AdditiveOperations(MbqlBackend, env, ts, false) == Parsed([(ts[0], MNumber(ts[1].image))] + operations, rest)
  {
    var tail := ts[1..];
    assert tail[0] == ts[1] && tail[1..] == ts[2..];
    NumberTerm(env, tail, false);
    AdditiveStep(env, ts, MNumber(ts[1].image), ts[2..], operations, rest);
  }

  /** The additive loop over `op c`, a number `c`. */
  lemma OneAddition(env: Env, ts: seq<Token>)
    requires |ts| == 2 && ts[0].kind == AdditiveOperator && ts[1].kind == NumberLiteral
    ensures AdditiveOperations(MbqlBackend, env, ts, false) == Parsed([(ts[0], MNumber(ts[1].image))], [])
  {
    assert ts[2..] == [];
    assert AdditiveOperations(MbqlBackend, env, [], false) == Parsed([], []);
    NumberAddition(env, ts, [], []);
    assert [(ts[0], MNumber(ts[1].image))] + [] == [(ts[0], MNumber(ts[1].image))];
  }

  /** The additive loop over `op b op' c`, numbers `b` and `c`. */
  lemma TwoAdditions(env: Env, ts: seq<Token>)
    requires |ts| == 4 && ts[1].kind == NumberLiteral && ts[3].kind == NumberLiteral
    requires ts[0].kind == AdditiveOperator && ts[2].kind == AdditiveOperator
    ensures AdditiveOperations(MbqlBackend, env, ts, false)
            == Parsed([(ts[0], MNumber(ts[1].image))] + [(ts[2], MNumber(ts[3].image))], [])
  {
    var mid := ts[2..];
    assert |mid| == 2 && mid[0] == ts[2] && mid[1] == ts[3];
    OneAddition(env, mid);
    NumberAddition(env, ts, [(ts[2], MNumber(ts[3].image))], []);
  }

  /** `_math` of two operations with the same operator. */
  lemma TwoSameOperations(initial: MbqlExpr, p: Token, rhs1: MbqlExpr, q: Token, rhs2: MbqlExpr)
    requires p.image == q.image && !HeadedBy(initial, p.image)
    ensures Math(initial, [(p, rhs1), (q, rhs2)]) == MList([MString(p.image), initial, rhs1, rhs2])
  {
    var ops := [(p, rhs1), (q, rhs2)];
    assert ops[..1] == [ops[0]];
    assert Math(initial, ops[..1]) == MList([MString(p.image), initial, rhs1]);
  }

  /** `1 + 2 + 3`, and any chain `a op b op c` of numbers with one additive operator, compiles
      to one n-ary node. */
  lemma SameOperatorChainIsFlat(env: Env, a: Token, p: Token, b: Token, q: Token, c: Token)
    requires a.kind == NumberLiteral && b.kind == NumberLiteral && c.kind == NumberLiteral
    requires p.kind == AdditiveOperator && q.kind == AdditiveOperator && p.image == q.image
    ensures Invoke(MbqlBackend, env, [a, p, b, q, c], ExpressionRule)
            == Value(MList([MString(p.image), MNumber(a.image), MNumber(b.image), MNumber(c.image)]))
  {
    var ts := [a, p, b, q, c];
    assert ts[1..] == [p, b, q, c];
    NumberTerm(env, ts, false);
    TwoAdditions(env, ts[1..]);
    var ops := [(p, MNumber(b.image)), (q, MNumber(c.image))];
    TwoSameOperations(MNumber(a.image), p, MNumber(b.image), q, MNumber(c.image));
    assert Additive(MbqlBackend, env, ts, false) == Parsed(Math(MNumber(a.image), ops), []);
  }

  /** A term with no operator after it: both precedence levels wrap it with no operations. */
  lemma LoneAtom<V>(b: Backend<V>, env: Env, ts: seq<Token>, outside: bool, v: V, rest: seq<Token>)
    requires Atomic(b, env, ts, outside) == Parsed(v, rest)
    requires !NextIs(rest, MultiplicativeOperator) && !NextIs(rest, AdditiveOperator)
    ensures Additive(b, env, ts, outside) == Parsed(b.math(b.math(v, []), []), rest)
  {
    assert MultiplicativeOperations(b, env, rest, outside) == Parsed([], rest);
    assert Multiplicative(b, env, ts, outside) == Parsed(b.math(v, []), rest);
    assert AdditiveOperations(b, env, rest, outside) == Parsed([], rest);
  }

  /** A single known field as the argument list of an aggregation. */
  lemma FieldArgument(env: Env, name: Token, rp: Token, field: Field)
    requires name.kind == Identifier && rp.kind == RParen
    requires FieldForName(env.table, name.image) == Some(field)
    ensures Arguments(MbqlBackend, env, [name, rp])
            == Parsed(SepList([MList([MString("field-id"), MId(field.id)])], []), [rp])
  {
    var reference := MList([MString("field-id"), MId(field.id)]);
    assert [name, rp][1..] == [rp];
    assert FieldExpression(MbqlBackend, env, [name, rp]) == Parsed(reference, [rp]);
    assert Atomic(MbqlBackend, env, [name, rp], false) == Parsed(reference, [rp]);
    LoneAtom(MbqlBackend, env, [name, rp], false, reference, [rp]);
    assert Expression(MbqlBackend, env, [name, rp], false) == Parsed(reference, [rp]);
    assert MoreArguments(MbqlBackend, env, [rp]) == Parsed(SepList([], []), [rp]);
    assert [reference] + [] == [reference];
  }

  /** An aggregation call whose argument list parsed and is followed by `)`. */
  lemma AggregationCall<V>(b: Backend<V>, env: Env, ts: seq<Token>, args: SepList<V>, rest: seq<Token>)
    requires NextIs(ts, Aggregation) && NextIs(ts[1..], LParen)
    requires Arguments(b, env, ts[2..]) == Parsed(args, rest) && NextIs(rest, RParen)
    ensures AggregationExpression(b, env, ts) == Parsed(b.aggregation(env, ts[0], ts[1], args, rest[0]), rest[1..])
  {
  }

  /** The aggregation call `Sum(Price)` itself. */
  lemma SumCall(env: Env, ts: seq<Token>, short: string, field: Field)
    requires |ts| == 4 && ts[0].kind == Aggregation && ts[1].kind == LParen
    requires ts[2].kind == Identifier && ts[3].kind == RParen
    requires ShortCode(env.validAggregations, ts[0].image) == Some(short)
    requires FieldForName(env.table, ts[2].image) == Some(field)
    ensures AggregationExpression(MbqlBackend, env, ts)
            == Parsed(MList([MString(short), MList([MString("field-id"), MId(field.id)])]), [])
  {
    var args := SepList([MList([MString("field-id"), MId(field.id)])], []);
    var rest := ts[3..];
    assert ts[1..][0] == ts[1] && ts[2..] == [ts[2], ts[3]] && rest == [ts[3]] && rest[1..] == [];
    FieldArgument(env, ts[2], ts[3], field);
    AggregationCall(MbqlBackend, env, ts, args, rest);
    ShortCodeHead(env, ts[0], ts[1], args, ts[3], short);
    assert [MString(short)] + args.values == [MString(short), args.values[0]];
  }

  /** A keyword with a short code compiles to that code followed by the argument values. */
  lemma ShortCodeHead(env: Env, agg: Token, lp: Token, args: SepList<MbqlExpr>, rp: Token, short: string)
    requires ShortCode(env.validAggregations, agg.image) == Some(short)
    ensures MbqlBackend.aggregation(env, agg, lp, args, rp) == MList([MString(short)] + args.values)
  {
  }

  /** `Sum(Price)` as an aggregation: the short code of `Sum`, then the field reference. */
  lemma SumOfField(env: Env, agg: Token, lp: Token, name: Token, rp: Token, short: string, field: Field)
    requires agg.kind == Aggregation && lp.kind == LParen && name.kind == Identifier && rp.kind == RParen
    requires ShortCode(env.validAggregations, agg.image) == Some(short)
    requires FieldForName(env.table, name.image) == Some(field)
    ensures Invoke(MbqlBackend, env, [agg, lp, name, rp], AggregationRule)
            == Value(MList([MString(short), MList([MString("field-id"), MId(field.id)])]))
  {
    var ts := [agg, lp, name, rp];
    var total := MList([MString(short), MList([MString("field-id"), MId(field.id)])]);
    SumCall(env, ts, short, field);
    assert Atomic(MbqlBackend, env, ts, true) == Parsed(total, []);
    LoneAtom(MbqlBackend, env, ts, true, total, []);
  }

  /** The same tokens as a plain formula: the gate closes the aggregation alternative. */
  lemma SumInFormulaIsRejected<V>(b: Backend<V>, env: Env, agg: Token, lp: Token, name: Token, rp: Token)
    requires agg.kind == Aggregation
    ensures Invoke(b, env, [agg, lp, name, rp], ExpressionRule) == SyntaxErrors([NoViableAlternative(Some(agg))])
  {
    var ts := [agg, lp, name, rp];
    var failure := Failed(SyntaxFailure(NoViableAlternative(Some(agg))));
    assert Atomic(b, env, ts, false) == failure;
    assert Multiplicative(b, env, ts, false) == failure;
    assert Additive(b, env, ts, false) == failure;
    assert EntryParse(b, env, ts, ExpressionRule) == failure;
  }

  /** Under the `aggregation` rule a bare name, one not followed by `(`, starts neither a metric
      call nor (the gate is closed) a field: no viable alternative, at the name. */
  lemma BareNameInAggregationIsRejected<V>(b: Backend<V>, env: Env, ts: seq<Token>)
    requires |ts| > 0 && ts[0].kind == Identifier && !NextIs(ts[1..], LParen)
    ensures Invoke(b, env, ts, AggregationRule) == SyntaxErrors([NoViableAlternative(Some(ts[0]))])
  {
    var failure := Failed(SyntaxFailure(NoViableAlternative(Some(ts[0]))));
    assert Atomic(b, env, ts, true) == failure;
    assert Multiplicative(b, env, ts, true) == failure;
    assert Additive(b, env, ts, true) == failure;
    assert EntryParse(b, env, ts, AggregationRule) == failure;
  }

  /** An unknown name: the compiler throws, naming it. */
  lemma UnknownFieldThrows(env: Env, name: Token)
    requires name.kind == Identifier
    requires ResolveFieldName(env.table, env.customFields, name.image).Unresolved?
    ensures Invoke(MbqlBackend, env, [name], ExpressionRule) == Raised("Unknown field \"" + name.image + "\"")
  {
    var failure := Failed(Thrown("Unknown field \"" + name.image + "\""));
    assert Atomic(MbqlBackend, env, [name], false) == failure;
    assert Multiplicative(MbqlBackend, env, [name], false) == failure;
    assert Additive(MbqlBackend, env, [name], false) == failure;
    assert EntryParse(MbqlBackend, env, [name], ExpressionRule) == failure;
  }

  /** An unknown name: the syntax parser builds an `unknown` node inside the two `math` levels. */
  lemma UnknownFieldIsANode(env: Env, name: Token)
    requires name.kind == Identifier
    requires ResolveFieldName(env.table, env.customFields, name.image).Unresolved?
    ensures Invoke(SyntaxBackend, env, [name], ExpressionRule)
            == Value(Node(MathNode, [Node(MathNode, [Node(UnknownNode, [Node(IdentifierNode, [Wrap(name)])])])]))
  {
    var unknown := Node(UnknownNode, [Node(IdentifierNode, [Wrap(name)])]);
    assert [name][1..] == [];
    assert NodeName(env, Node(IdentifierNode, [Wrap(name)])) == name.image;
    assert Atomic(SyntaxBackend, env, [name], false) == Parsed(unknown, []);
    LoneAtom(SyntaxBackend, env, [name], false, unknown, []);
    assert MathTree(unknown, []) == Node(MathNode, [unknown]);
    assert MathTree(Node(MathNode, [unknown]), []) == Node(MathNode, [Node(MathNode, [unknown])]);
  }

  /** Parentheses are transparent to the compiler: the group's value is the inner expression's. */
  lemma ParenthesesAreTransparent(env: Env, ts: seq<Token>, outside: bool)
    ensures var r := Parenthesis(MbqlBackend, env, ts, outside);
            r.Parsed? ==> NextIs(ts, LParen) && Expression(MbqlBackend, env, ts[1..], outside).Parsed?
                          && r.value == Expression(MbqlBackend, env, ts[1..], outside).value
  {
  }

  /** A name in field position compiles to a field reference, else to an expression reference,
      else makes the compiler throw `Unknown field "<name>"`. */
  lemma CompiledFieldName(env: Env, ts: seq<Token>)
    requires |ts| > 0 && ts[0].kind == Identifier
    ensures var r := FieldExpression(MbqlBackend, env, ts);
            match ResolveFieldName(env.table, env.customFields, ts[0].image)
            case ToField(f) => r == Parsed(MList([MString("field-id"), MId(f.id)]), ts[1..])
            case ToExpression(_) => r == Parsed(MList([MString("expression"), MString(ts[0].image)]), ts[1..])
            case Unresolved => r == Failed(Thrown("Unknown field \"" + ts[0].image + "\""))
  {
  }

  /** The same name under the syntax parser: a `field` node, an `expression-reference` node or
      an `unknown` node, never a thrown error. */
  lemma ParsedFieldName(env: Env, ts: seq<Token>)
    requires |ts| > 0 && ts[0].kind == Identifier
    ensures var r := FieldExpression(SyntaxBackend, env, ts);
            var name := Node(IdentifierNode, [Wrap(ts[0])]);
            match ResolveFieldName(env.table, env.customFields, ts[0].image)
            case ToField(_) => r == Parsed(Node(FieldNode, [name]), ts[1..])
            case ToExpression(_) => r == Parsed(Node(ExpressionReferenceNode, [UndefinedLeaf]), ts[1..])
            case Unresolved => r == Parsed(Node(UnknownNode, [name]), ts[1..])
  {
    assert NodeName(env, Node(IdentifierNode, [Wrap(ts[0])])) == ts[0].image;
  }

  /** A metric call compiles to a metric reference when a metric has that formatted name, and
      otherwise makes the compiler throw `Unknown metric "<name>"`. */
  lemma CompiledMetricCall(env: Env, ts: seq<Token>)
    requires |ts| >= 3 && ts[0].kind == Identifier && ts[1].kind == LParen && ts[2].kind == RParen
    ensures var r := MetricExpression(MbqlBackend, env, ts);
            match MetricForName(env.table, env.fmt, ts[0].image)
            case Some(m) => r == Parsed(MList([MString("METRIC"), MId(m.id)]), ts[3..])
            case None => r == Failed(Thrown("Unknown metric \"" + ts[0].image + "\""))
  {
    assert ts[1..][0] == ts[1] && ts[2..][0] == ts[2];
  }
}
