/** The syntax tree of a custom-expression reference. As written, `_expressionReference` applies
    `token()` to the name node, which is not a lexer token, so the reference keeps no trace of
    the name: a formula that mentions a custom expression does not give its tokens back. With
    the name node kept as it is, every formula the syntax parser accepts does. */
module ExpressionReferences {
  import opened Tokens
  import opened Metadata
  import opened Grammar
  import opened SyntaxTree
  import opened SyntaxGating
  import opened SyntaxLeaves
  import Examples

  /** With the corrected backend, a tree whose gates hold with the flag clear drops no token. */
  lemma {:induction false} GatedFormulaIsLossless(n: SyntaxNode)
    requires Gated(n, false)
    ensures Lossless(n, false, true)
    decreases n
  {
    if n.Node? {
      forall c | c in n.children
        ensures Lossless(c, false, true)
      {
        GatedFormulaIsLossless(c);
      }
    }
  }

  /** Corrected: the leaves of every formula the syntax parser accepts are its tokens, in order. */
  lemma CorrectedFormulaLeaves(env: Env, source: string, lex: string -> LexResult)
    ensures var r := CorrectedParseTree(env, source, ExpressionRule, lex);
            r.Value? ==> Leaves(r.value) == Spans(lex(source).tokens)
  {
    var ts := lex(source).tokens;
    var r := CorrectedParseTree(env, source, ExpressionRule, lex);
    if r.Value? {
      var p := Expression(CorrectedSyntaxBackend, env, ts, false);
      assert p.Parsed? && p.rest == [] && r.value == p.value;
      assert CorrectedSyntaxBackend == TreeBackend(true);
      ExpressionGated(env, ts, false, true);
      ExpressionLeaves(env, ts, false, true);
      GatedFormulaIsLossless(r.value);
      assert Consumed(ts, []) == ts;
    }
  }

  /** The formula that is one name resolving to a custom expression. */
  lemma ReferenceFormula(env: Env, name: Token, corrected: bool)
    requires name.kind == Identifier
    requires ResolveFieldName(env.table, env.customFields, name.image).ToExpression?
    ensures var reference := TreeBackend(corrected).expressionReference(
                               Node(IdentifierNode, [Wrap(name)]),
                               ResolveFieldName(env.table, env.customFields, name.image).expression);
            Invoke(TreeBackend(corrected), env, [name], ExpressionRule)
            == Value(Node(MathNode, [Node(MathNode, [reference])]))
  {
    var b := TreeBackend(corrected);
    var nameNode := Node(IdentifierNode, [Wrap(name)]);
    var reference := b.expressionReference(nameNode, ResolveFieldName(env.table, env.customFields, name.image).expression);
    assert [name][1..] == [];
    assert NodeName(env, nameNode) == name.image;
    assert Atomic(b, env, [name], false) == Parsed(reference, []);
    Examples.LoneAtom(b, env, [name], false, reference, []);
    assert b.math == MathTree;
    assert MathTree(reference, []) == Node(MathNode, [reference]);
    assert MathTree(Node(MathNode, [reference]), []) == Node(MathNode, [Node(MathNode, [reference])]);
  }

  /** As written: a formula that is one custom-expression name parses, but its tree has no leaves
      at all, while the source has one token. */
  lemma ReferenceDropsItsName(env: Env, source: string, lex: string -> LexResult, name: Token)
    requires source != "" && lex(source).tokens == [name] && name.kind == Identifier
    requires ResolveFieldName(env.table, env.customFields, name.image).ToExpression?
    ensures var r := ParseTree(env, source, ExpressionRule, lex);
            r.Value? && Leaves(r.value) == [] && Leaves(r.value) != Spans(lex(source).tokens)
  {
    ReferenceFormula(env, name, false);
    var reference := Node(ExpressionReferenceNode, [UndefinedLeaf]);
    assert LeavesOf([UndefinedLeaf]) == [] by { LeavesOfSingle(UndefinedLeaf); }
    LeavesOfSingle(reference);
    LeavesOfSingle(Node(MathNode, [reference]));
    assert Spans([name]) == [SpanOf(name)];
  }

  /** Corrected, on the same input: the tree's one leaf is the name. */
  lemma CorrectedReferenceKeepsItsName(env: Env, source: string, lex: string -> LexResult, name: Token)
    requires source != "" && lex(source).tokens == [name] && name.kind == Identifier
    requires ResolveFieldName(env.table, env.customFields, name.image).ToExpression?
    ensures var r := CorrectedParseTree(env, source, ExpressionRule, lex);
            r.Value? && Leaves(r.value) == [SpanOf(name)]
  {
    ReferenceFormula(env, name, true);
    CorrectedFormulaLeaves(env, source, lex);
    assert Spans([name]) == [SpanOf(name)];
  }
}
