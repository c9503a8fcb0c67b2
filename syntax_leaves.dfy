/** The syntax tree keeps the tokens it was parsed from: when no metric call and (as written) no
    expression reference occur, its leaves read left to right are the consumed tokens. */
module SyntaxLeaves {
  import opened Tokens
  import opened Grammar
  import opened SyntaxTree

  /** The text and offsets of the leaves of a tree, left to right. A separator pushed as a
      lexer token counts as a leaf; the empty wrapper of a syntax node has none. */
  function Leaves(n: SyntaxNode): seq<Span>
    decreases n
  {
    match n
    case TokenLeaf(text, start, end) => [Span(text, start, end)]
    case RawToken(t) => [SpanOf(t)]
    case UndefinedLeaf => []
    case Node(_, cs) => LeavesOf(cs)
  }

  function LeavesOf(cs: seq<SyntaxNode>): seq<Span>
    decreases cs
  {
    if |cs| == 0 then [] else Leaves(cs[0]) + LeavesOf(cs[1..])
  }

  /** No node drops tokens: no metric call (its parentheses are not kept), no unknown metric,
      which is the only unknown node that can occur where the flag is set, and, unless the
      corrected backend built the tree, no expression reference (as written, its name is wrapped
      as if it were a token). */
  predicate Lossless(n: SyntaxNode, outside: bool, corrected: bool)
    decreases n
  {
    match n
    case Node(t, cs) =>
      && t != MetricNode && (corrected || t != ExpressionReferenceNode) && !(t == UnknownNode && outside)
      && forall c :: c in cs ==> Lossless(c, if t == AggregationNode then false else outside, corrected)
    case _ => true
  }

  lemma {:induction false} LeavesOfAppend(a: seq<SyntaxNode>, b: seq<SyntaxNode>)
    ensures LeavesOf(a + b) == LeavesOf(a) + LeavesOf(b)
    decreases |a|
  {
    if |a| == 0 {
      assert a + b == b;
    } else {
      assert (a + b)[0] == a[0];
      assert (a + b)[1..] == a[1..] + b;
      LeavesOfAppend(a[1..], b);
    }
  }

  lemma LeavesOfPair(x: SyntaxNode, y: SyntaxNode)
    ensures LeavesOf([x, y]) == Leaves(x) + Leaves(y)
  {
    assert [x, y][1..] == [y];
    LeavesOfSingle(y);
  }

  lemma LeavesOfSingle(x: SyntaxNode)
    ensures LeavesOf([x]) == Leaves(x)
  {
    assert [x][1..] == [];
  }

  /** The leaves of a run of operations: each operator, then its operand. */
  function OperationLeaves(operations: seq<(Token, SyntaxNode)>): seq<Span> {
    if |operations| == 0 then []
    else [SpanOf(operations[0].0)] + Leaves(operations[0].1) + OperationLeaves(operations[1..])
  }

  lemma {:induction false} OperationChildrenLeaves(operations: seq<(Token, SyntaxNode)>)
    ensures LeavesOf(OperationChildren(operations)) == OperationLeaves(operations)
    decreases |operations|
  {
    if |operations| > 0 {
      var head := [Wrap(operations[0].0), operations[0].1];
      var tail := OperationChildren(operations[1..]);
      assert OperationChildren(operations) == head + tail;
      LeavesOfAppend(head, tail);
      LeavesOfPair(Wrap(operations[0].0), operations[0].1);
      OperationChildrenLeaves(operations[1..]);
    }
  }

  lemma MathTreeLeaves(initial: SyntaxNode, operations: seq<(Token, SyntaxNode)>)
    ensures Leaves(MathTree(initial, operations)) == Leaves(initial) + OperationLeaves(operations)
  {
    LeavesOfAppend([initial], OperationChildren(operations));
    LeavesOfSingle(initial);
    OperationChildrenLeaves(operations);
  }

  /** A lossless `math` node has lossless operands. */
  lemma MathTreeLossless(initial: SyntaxNode, operations: seq<(Token, SyntaxNode)>, outside: bool, corrected: bool)
    requires Lossless(MathTree(initial, operations), outside, corrected)
    ensures Lossless(initial, outside, corrected)
    ensures forall i :: 0 <= i < |operations| ==> Lossless(operations[i].1, outside, corrected)
  {
    var cs := MathTree(initial, operations).children;
    assert cs[0] in cs;
    forall i | 0 <= i < |operations|
      ensures Lossless(operations[i].1, outside, corrected)
    {
      assert cs[2 * i + 2] in cs;
    }
  }

  /** The leaves of arguments introduced by separators: each separator, then its argument. */
  function SeparatedLeaves(separators: seq<Token>, values: seq<SyntaxNode>): seq<Span>
    requires |separators| == |values|
  {
    if |values| == 0 then []
    else [SpanOf(separators[0])] + Leaves(values[0]) + SeparatedLeaves(separators[1..], values[1..])
  }

  /** Consing a value and its separator onto an interleaving. */
  lemma {:induction false} InterleaveCons(v: SyntaxNode, values: seq<SyntaxNode>, s: Token, separators: seq<Token>)
    ensures Interleave([v] + values, [s] + separators) == [v, RawToken(s)] + Interleave(values, separators)
    decreases |values|
  {
    var n := |values|;
    if n == 0 {
      assert ([v] + values)[..0] == [];
    } else {
      assert ([v] + values)[..n] == [v] + values[..n - 1];
      InterleaveCons(v, values[..n - 1], s, separators);
    }
  }

  /** The interleaving `MANY_SEP` produces: the first argument, then separator and argument pairs. */
  lemma {:induction false} InterleaveLeaves(v: SyntaxNode, values: seq<SyntaxNode>, separators: seq<Token>)
    requires |separators| == |values|
    ensures LeavesOf(Interleave([v] + values, separators)) == Leaves(v) + SeparatedLeaves(separators, values)
    decreases |values|
  {
    if |values| == 0 {
      assert [v] + values == [v];
      assert [v][..0] == [];
      assert Interleave([v], separators) == [v];
      LeavesOfSingle(v);
    } else {
      var sep, ss := separators[0], separators[1..];
      assert separators == [sep] + ss;
      InterleaveCons(v, values, sep, ss);
      InterleaveLeaves(values[0], values[1..], ss);
      assert [values[0]] + values[1..] == values;
      var later := Leaves(values[0]) + SeparatedLeaves(ss, values[1..]);
      InterleaveLeavesStep(v, sep, Interleave(values, ss), later);
      assert SeparatedLeaves(separators, values) == [SpanOf(sep)] + later;
    }
  }

  /** A value and its separator in front of nodes with known leaves. */
  lemma InterleaveLeavesStep(v: SyntaxNode, sep: Token, tail: seq<SyntaxNode>, later: seq<Span>)
    requires LeavesOf(tail) == later
    ensures LeavesOf([v, RawToken(sep)] + tail) == Leaves(v) + ([SpanOf(sep)] + later)
  {
    LeavesOfAppend([v, RawToken(sep)], tail);
    LeavesOfPair(v, RawToken(sep));
  }

  /** The leaves of what `MANY_SEP` collected. */
  function ArgumentLeaves(args: SepList<SyntaxNode>): seq<Span>
    requires if |args.values| == 0 then |args.separators| == 0 else |args.separators| + 1 == |args.values|
  {
    if |args.values| == 0 then []
    else Leaves(args.values[0]) + SeparatedLeaves(args.separators, args.values[1..])
  }

  lemma AggregationTreeLeaves(env: Env, aggregation: Token, lParen: Token, args: SepList<SyntaxNode>, rParen: Token)
    requires if |args.values| == 0 then |args.separators| == 0 else |args.separators| + 1 == |args.values|
    ensures Leaves(AggregationTree(env, aggregation, lParen, args, rParen))
            == [SpanOf(aggregation), SpanOf(lParen)] + ArgumentLeaves(args) + [SpanOf(rParen)]
  {
    var middle := Interleave(args.values, args.separators);
    LeavesOfAppend([Wrap(aggregation), Wrap(lParen)] + middle, [Wrap(rParen)]);
    LeavesOfAppend([Wrap(aggregation), Wrap(lParen)], middle);
    LeavesOfPair(Wrap(aggregation), Wrap(lParen));
    LeavesOfSingle(Wrap(rParen));
    if |args.values| == 0 {
      assert middle == [];
    } else {
      assert args.values == [args.values[0]] + args.values[1..];
      InterleaveLeaves(args.values[0], args.values[1..], args.separators);
    }
  }

  /** The arguments of a lossless aggregation node are lossless with the flag clear. */
  lemma AggregationTreeLossless(env: Env, aggregation: Token, lParen: Token, args: SepList<SyntaxNode>, rParen: Token, outside: bool, corrected: bool)
    requires Lossless(AggregationTree(env, aggregation, lParen, args, rParen), outside, corrected)
    ensures forall v :: v in args.values ==> Lossless(v, false, corrected)
  {
    var cs := AggregationTree(env, aggregation, lParen, args, rParen).children;
    forall v | v in args.values
      ensures Lossless(v, false, corrected)
    {
      var i :| 0 <= i < |args.values| && args.values[i] == v;
      var n := |args.values| - 1;
      InterleaveElementsIn(args.values[..n], args.separators, args.values[n]);
      if i == n {
        assert v in Interleave(args.values, args.separators);
      } else {
        assert v in args.values[..n];
        assert v in Interleave(args.values, args.separators);
      }
      assert v in cs;
    }
  }

  /** Every value occurs in the interleaving. */
  lemma {:induction false} InterleaveElementsIn(values: seq<SyntaxNode>, separators: seq<Token>, last: SyntaxNode)
    ensures forall v :: v in values ==> v in Interleave(values, separators)
    decreases |values|
  {
    if |values| > 0 {
      var n := |values| - 1;
      InterleaveElementsIn(values[..n], separators, values[n]);
      forall v | v in values
        ensures v in Interleave(values, separators)
      {
        if v != values[n] {
          var i :| 0 <= i < |values| && values[i] == v;
          assert v in values[..n];
        }
      }
    }
  }

  // Splitting the consumed tokens.

  lemma ConsumedFront(ts: seq<Token>, rest: seq<Token>)
    requires |ts| > 0 && IsSuffix(rest, ts[1..])
    ensures IsSuffix(rest, ts) && Consumed(ts, rest) == [ts[0]] + Consumed(ts[1..], rest)
  {
    SuffixTransitive(rest, ts[1..], ts);
    assert Consumed(ts, ts[1..]) == [ts[0]];
  }

  lemma ConsumedBack(ts: seq<Token>, rest: seq<Token>)
    requires IsSuffix(rest, ts) && |rest| > 0
    ensures IsSuffix(rest[1..], ts) && Consumed(ts, rest[1..]) == Consumed(ts, rest) + [rest[0]]
  {
    assert IsSuffix(rest[1..], rest);
    SuffixTransitive(rest[1..], rest, ts);
    assert Consumed(rest, rest[1..]) == [rest[0]];
  }

  lemma SpansSingle(t: Token)
    ensures Spans([t]) == [SpanOf(t)]
  {
  }

  // The leaves of each rule's tree, under the syntax backend.

  lemma {:induction false} ExpressionLeaves(env: Env, ts: seq<Token>, outside: bool, corrected: bool)
    ensures var r := Expression(TreeBackend(corrected), env, ts, outside);
            r.Parsed? && Lossless(r.value, outside, corrected) ==> Leaves(r.value) == Spans(Consumed(ts, r.rest))
    decreases |ts|, 6
  {
    AdditiveLeaves(env, ts, outside, corrected);
  }

  lemma {:induction false} AdditiveLeaves(env: Env, ts: seq<Token>, outside: bool, corrected: bool)
    ensures var r := Additive(TreeBackend(corrected), env, ts, outside);
            r.Parsed? && Lossless(r.value, outside, corrected) ==> Leaves(r.value) == Spans(Consumed(ts, r.rest))
    decreases |ts|, 5
  {
    var m := Multiplicative(TreeBackend(corrected), env, ts, outside);
    if m.Parsed? {
      var ops := AdditiveOperations(TreeBackend(corrected), env, m.rest, outside);
      if ops.Parsed? && Lossless(MathTree(m.value, ops.value), outside, corrected) {
        MathTreeLossless(m.value, ops.value, outside, corrected);
        MultiplicativeLeaves(env, ts, outside, corrected);
        AdditiveOperationsLeaves(env, m.rest, outside, corrected);
        MathTreeLeaves(m.value, ops.value);
        SuffixTransitive(ops.rest, m.rest, ts);
        SpansAppend(Consumed(ts, m.rest), Consumed(m.rest, ops.rest));
      }
    }
  }

  lemma {:induction false} AdditiveOperationsLeaves(env: Env, ts: seq<Token>, outside: bool, corrected: bool)
    ensures var r := AdditiveOperations(TreeBackend(corrected), env, ts, outside);
            r.Parsed? && (forall i :: 0 <= i < |r.value| ==> Lossless(r.value[i].1, outside, corrected))
            ==> OperationLeaves(r.value) == Spans(Consumed(ts, r.rest))
    decreases |ts|, 5
  {
    if NextIs(ts, AdditiveOperator) {
      var m := Multiplicative(TreeBackend(corrected), env, ts[1..], outside);
      if m.Parsed? {
        var ops := AdditiveOperations(TreeBackend(corrected), env, m.rest, outside);
        if ops.Parsed? {
          var r := AdditiveOperations(TreeBackend(corrected), env, ts, outside);
          assert r == Parsed([(ts[0], m.value)] + ops.value, ops.rest);
          if forall i :: 0 <= i < |r.value| ==> Lossless(r.value[i].1, outside, corrected) {
            OperationLeavesCons(ts[0], m.value, ops.value, outside, corrected);
            MultiplicativeLeaves(env, ts[1..], outside, corrected);
            AdditiveOperationsLeaves(env, m.rest, outside, corrected);
            OperationsStep(ts, m.rest, ops.rest);
          }
        }
      }
    }
  }

  /** One more operation in front: the operator's span, the operand's leaves, then the rest. */
  lemma OperationLeavesCons(t: Token, v: SyntaxNode, operations: seq<(Token, SyntaxNode)>, outside: bool, corrected: bool)
    requires forall i :: 0 <= i < |[(t, v)] + operations| ==> Lossless(([(t, v)] + operations)[i].1, outside, corrected)
    ensures Lossless(v, outside, corrected)
    ensures forall i :: 0 <= i < |operations| ==> Lossless(operations[i].1, outside, corrected)
    ensures OperationLeaves([(t, v)] + operations) == [SpanOf(t)] + Leaves(v) + OperationLeaves(operations)
  {
    var r := [(t, v)] + operations;
    assert r[0] == (t, v);
    assert r[1..] == operations;
    forall i | 0 <= i < |operations|
      ensures Lossless(operations[i].1, outside, corrected)
    {
      assert r[i + 1] == operations[i];
    }
  }

  /** The consumed tokens of an operator, its operand and the operations after it. */
  lemma OperationsStep(ts: seq<Token>, mid: seq<Token>, rest: seq<Token>)
    requires |ts| > 0 && IsSuffix(mid, ts[1..]) && IsSuffix(rest, mid)
    ensures IsSuffix(rest, ts)
    ensures Spans(Consumed(ts, rest)) == [SpanOf(ts[0])] + Spans(Consumed(ts[1..], mid)) + Spans(Consumed(mid, rest))
  {
    SuffixTransitive(rest, mid, ts[1..]);
    ConsumedFront(ts, rest);
    SpansAppend([ts[0]], Consumed(ts[1..], rest));
    SpansAppend(Consumed(ts[1..], mid), Consumed(mid, rest));
    SpansSingle(ts[0]);
  }

  lemma {:induction false} MultiplicativeLeaves(env: Env, ts: seq<Token>, outside: bool, corrected: bool)
    ensures var r := Multiplicative(TreeBackend(corrected), env, ts, outside);
            r.Parsed? && Lossless(r.value, outside, corrected) ==> Leaves(r.value) == Spans(Consumed(ts, r.rest))
    decreases |ts|, 4
  {
    var a := Atomic(TreeBackend(corrected), env, ts, outside);
    if a.Parsed? {
      var ops := MultiplicativeOperations(TreeBackend(corrected), env, a.rest, outside);
      if ops.Parsed? && Lossless(MathTree(a.value, ops.value), outside, corrected) {
        MathTreeLossless(a.value, ops.value, outside, corrected);
        AtomicLeaves(env, ts, outside, corrected);
        MultiplicativeOperationsLeaves(env, a.rest, outside, corrected);
        MathTreeLeaves(a.value, ops.value);
        SuffixTransitive(ops.rest, a.rest, ts);
        SpansAppend(Consumed(ts, a.rest), Consumed(a.rest, ops.rest));
      }
    }
  }

  lemma {:induction false} MultiplicativeOperationsLeaves(env: Env, ts: seq<Token>, outside: bool, corrected: bool)
    ensures var r := MultiplicativeOperations(TreeBackend(corrected), env, ts, outside);
            r.Parsed? && (forall i :: 0 <= i < |r.value| ==> Lossless(r.value[i].1, outside, corrected))
            ==> OperationLeaves(r.value) == Spans(Consumed(ts, r.rest))
    decreases |ts|, 4
  {
    if NextIs(ts, MultiplicativeOperator) {
      var a := Atomic(TreeBackend(corrected), env, ts[1..], outside);
      if a.Parsed? {
        var ops := MultiplicativeOperations(TreeBackend(corrected), env, a.rest, outside);
        if ops.Parsed? {
          var r := MultiplicativeOperations(TreeBackend(corrected), env, ts, outside);
          assert r == Parsed([(ts[0], a.value)] + ops.value, ops.rest);
          if forall i :: 0 <= i < |r.value| ==> Lossless(r.value[i].1, outside, corrected) {
            OperationLeavesCons(ts[0], a.value, ops.value, outside, corrected);
            AtomicLeaves(env, ts[1..], outside, corrected);
            MultiplicativeOperationsLeaves(env, a.rest, outside, corrected);
            OperationsStep(ts, a.rest, ops.rest);
          }
        }
      }
    }
  }

  lemma {:induction false} AtomicLeaves(env: Env, ts: seq<Token>, outside: bool, corrected: bool)
    ensures var r := Atomic(TreeBackend(corrected), env, ts, outside);
            r.Parsed? && Lossless(r.value, outside, corrected) ==> Leaves(r.value) == Spans(Consumed(ts, r.rest))
    decreases |ts|, 3
  {
    if |ts| > 0 {
      if outside && (ts[0].kind == Aggregation || ts[0].kind == Identifier) {
        AggregationOrMetricLeaves(env, ts, corrected);
      } else if !outside && (ts[0].kind == StringLiteral || ts[0].kind == Identifier) {
        FieldExpressionLeaves(env, ts, corrected);
      } else if ts[0].kind == LParen {
        ParenthesisLeaves(env, ts, outside, corrected);
      } else if ts[0].kind == NumberLiteral {
        LeavesOfSingle(Wrap(ts[0]));
        assert Consumed(ts, ts[1..]) == [ts[0]];
      }
    }
  }

  lemma {:induction false} AggregationOrMetricLeaves(env: Env, ts: seq<Token>, corrected: bool)
    ensures var r := AggregationOrMetric(TreeBackend(corrected), env, ts);
            r.Parsed? && Lossless(r.value, true, corrected) ==> Leaves(r.value) == Spans(Consumed(ts, r.rest))
    decreases |ts|, 2
  {
    if NextIs(ts, Aggregation) {
      AggregationExpressionLeaves(env, ts, corrected);
    }
  }

  lemma {:induction false} AggregationExpressionLeaves(env: Env, ts: seq<Token>, corrected: bool)
    ensures var r := AggregationExpression(TreeBackend(corrected), env, ts);
            r.Parsed? && Lossless(r.value, true, corrected) ==> Leaves(r.value) == Spans(Consumed(ts, r.rest))
    decreases |ts|, 1
  {
    if NextIs(ts, Aggregation) && NextIs(ts[1..], LParen) {
      var args := Arguments(TreeBackend(corrected), env, ts[2..]);
      if args.Parsed? && NextIs(args.rest, RParen) {
        var tree := AggregationTree(env, ts[0], ts[1], args.value, args.rest[0]);
        if Lossless(tree, true, corrected) {
          AggregationTreeLossless(env, ts[0], ts[1], args.value, args.rest[0], true, corrected);
          ArgumentsLeaves(env, ts[2..], corrected);
          AggregationTreeLeaves(env, ts[0], ts[1], args.value, args.rest[0]);
          CallSpans(ts, args.rest);
        }
      }
    }
  }

  /** The consumed tokens of a call: name, `(`, the arguments, `)`. */
  lemma CallSpans(ts: seq<Token>, rest: seq<Token>)
    requires |ts| >= 2 && IsSuffix(rest, ts[2..]) && |rest| > 0
    ensures IsSuffix(rest[1..], ts)
    ensures Spans(Consumed(ts, rest[1..]))
            == [SpanOf(ts[0]), SpanOf(ts[1])] + Spans(Consumed(ts[2..], rest)) + [SpanOf(rest[0])]
  {
    ConsumedFront(ts[1..], rest);
    assert ts[1..][1..] == ts[2..];
    ConsumedFront(ts, rest);
    ConsumedBack(ts, rest);
    SpansAppend([ts[0], ts[1]], Consumed(ts[2..], rest));
    SpansAppend([ts[0], ts[1]] + Consumed(ts[2..], rest), [rest[0]]);
    assert [ts[0]] + ([ts[1]] + Consumed(ts[2..], rest)) == [ts[0], ts[1]] + Consumed(ts[2..], rest);
    SpansSingle(rest[0]);
    assert Spans([ts[0], ts[1]]) == [SpanOf(ts[0]), SpanOf(ts[1])];
  }

  lemma GroupTreeLeaves(lParen: Token, v: SyntaxNode, rParen: Token)
    ensures Leaves(GroupTree(lParen, v, rParen)) == [SpanOf(lParen)] + Leaves(v) + [SpanOf(rParen)]
  {
    LeavesOfAppend([Wrap(lParen), v], [Wrap(rParen)]);
    LeavesOfPair(Wrap(lParen), v);
    LeavesOfSingle(Wrap(rParen));
    assert GroupTree(lParen, v, rParen).children == [Wrap(lParen), v] + [Wrap(rParen)];
  }

  /** A group drops no tokens only if its inner expression drops none. */
  lemma GroupLossless(lParen: Token, v: SyntaxNode, rParen: Token, outside: bool, corrected: bool)
    requires Lossless(GroupTree(lParen, v, rParen), outside, corrected)
    ensures Lossless(v, outside, corrected)
  {
    var tree := GroupTree(lParen, v, rParen);
    assert tree.children[1] == v && tree.children[1] in tree.children;
  }

  /** The consumed tokens of a group: `(`, the inner expression, `)`. */
  lemma GroupSpans(ts: seq<Token>, rest: seq<Token>)
    requires |ts| >= 1 && IsSuffix(rest, ts[1..]) && |rest| > 0
    ensures IsSuffix(rest[1..], ts)
    ensures Spans(Consumed(ts, rest[1..])) == [SpanOf(ts[0])] + Spans(Consumed(ts[1..], rest)) + [SpanOf(rest[0])]
  {
    ConsumedFront(ts, rest);
    ConsumedBack(ts, rest);
    SpansAppend([ts[0]], Consumed(ts[1..], rest));
    SpansAppend([ts[0]] + Consumed(ts[1..], rest), [rest[0]]);
    SpansSingle(ts[0]);
    SpansSingle(rest[0]);
  }

  lemma FieldExpressionLeaves(env: Env, ts: seq<Token>, corrected: bool)
    ensures var r := FieldExpression(TreeBackend(corrected), env, ts);
            r.Parsed? && Lossless(r.value, false, corrected) ==> Leaves(r.value) == Spans(Consumed(ts, r.rest))
  {
    if |ts| > 0 && (ts[0].kind == StringLiteral || ts[0].kind == Identifier) {
      var name := if ts[0].kind == StringLiteral then StringLiteralTree(env, ts[0]) else IdentifierTree(ts[0]);
      LeavesOfSingle(Wrap(ts[0]));
      LeavesOfSingle(name);
      assert Consumed(ts, ts[1..]) == [ts[0]];
    }
  }

  /** What a parenthesised expression that parsed is made of. */
  lemma ParenthesisParsed<V>(b: Backend<V>, env: Env, ts: seq<Token>, outside: bool)
    ensures var r := Parenthesis(b, env, ts, outside);
            r.Parsed? ==> NextIs(ts, LParen)
                          && var e := Expression(b, env, ts[1..], outside);
                          && e.Parsed? && NextIs(e.rest, RParen)
                          && r == Parsed(b.parens(ts[0], e.value, e.rest[0]), e.rest[1..])
  {
  }

  lemma {:induction false} ParenthesisLeaves(env: Env, ts: seq<Token>, outside: bool, corrected: bool)
    ensures var r := Parenthesis(TreeBackend(corrected), env, ts, outside);
            r.Parsed? && Lossless(r.value, outside, corrected) ==> Leaves(r.value) == Spans(Consumed(ts, r.rest))
    decreases |ts|, 1
  {
    var r := Parenthesis(TreeBackend(corrected), env, ts, outside);
    ParenthesisParsed(TreeBackend(corrected), env, ts, outside);
    if r.Parsed? && Lossless(r.value, outside, corrected) {
      var e := Expression(TreeBackend(corrected), env, ts[1..], outside);
      var tree := GroupTree(ts[0], e.value, e.rest[0]);
      assert TreeBackend(corrected).parens == GroupTree;
      assert r.value == tree;
      GroupLossless(ts[0], e.value, e.rest[0], outside, corrected);
      ExpressionLeaves(env, ts[1..], outside, corrected);
      GroupTreeLeaves(ts[0], e.value, e.rest[0]);
      GroupSpans(ts, e.rest);
    }
  }

  lemma {:induction false} ArgumentsLeaves(env: Env, ts: seq<Token>, corrected: bool)
    ensures var r := Arguments(TreeBackend(corrected), env, ts);
            r.Parsed? && (forall v :: v in r.value.values ==> Lossless(v, false, corrected))
            ==> ArgumentLeaves(r.value) == Spans(Consumed(ts, r.rest))
    decreases |ts|, 7
  {
    if |ts| > 0 && StartsExpression(ts[0].kind) {
      var e := Expression(TreeBackend(corrected), env, ts, false);
      if e.Parsed? {
        var more := MoreArguments(TreeBackend(corrected), env, e.rest);
        if more.Parsed? {
          var vs := [e.value] + more.value.values;
          if forall v :: v in vs ==> Lossless(v, false, corrected) {
            assert e.value in vs;
            assert vs[1..] == more.value.values;
            assert forall v :: v in more.value.values ==> v in vs;
            ExpressionLeaves(env, ts, false, corrected);
            MoreArgumentsLeaves(env, e.rest, corrected);
            SuffixTransitive(more.rest, e.rest, ts);
            SpansAppend(Consumed(ts, e.rest), Consumed(e.rest, more.rest));
          }
        }
      }
    } else {
      assert Consumed(ts, ts) == [];
    }
  }

  lemma {:induction false} MoreArgumentsLeaves(env: Env, ts: seq<Token>, corrected: bool)
    ensures var r := MoreArguments(TreeBackend(corrected), env, ts);
            r.Parsed? && (forall v :: v in r.value.values ==> Lossless(v, false, corrected))
            ==> SeparatedLeaves(r.value.separators, r.value.values) == Spans(Consumed(ts, r.rest))
    decreases |ts|, 7
  {
    if NextIs(ts, Comma) {
      var e := Expression(TreeBackend(corrected), env, ts[1..], false);
      if e.Parsed? {
        var more := MoreArguments(TreeBackend(corrected), env, e.rest);
        if more.Parsed? {
          var vs := [e.value] + more.value.values;
          if forall v :: v in vs ==> Lossless(v, false, corrected) {
            assert e.value in vs;
            assert vs[1..] == more.value.values;
            assert ([ts[0]] + more.value.separators)[1..] == more.value.separators;
            assert forall v :: v in more.value.values ==> v in vs;
            ExpressionLeaves(env, ts[1..], false, corrected);
            MoreArgumentsLeaves(env, e.rest, corrected);
            OperationsStep(ts, e.rest, more.rest);
          }
        }
      }
    } else {
      assert Consumed(ts, ts) == [];
    }
  }

  /** The start rule's tree, when it consumes every token, has those tokens as its leaves. */
  lemma EntryLeaves(env: Env, ts: seq<Token>, rule: StartRule, corrected: bool)
    ensures var p := EntryParse(TreeBackend(corrected), env, ts, rule);
            p.Parsed? && p.rest == [] && Lossless(p.value, rule == AggregationRule, corrected) ==> Leaves(p.value) == Spans(ts)
  {
    assert Consumed(ts, []) == ts;
    match rule
    case ExpressionRule => ExpressionLeaves(env, ts, false, corrected);
    case AggregationRule => AdditiveLeaves(env, ts, true, corrected);
  }

  /** `parse` of a whole source: a tree without metric calls and expression references has the
      lexed tokens as its leaves, in order. */
  lemma ParseTreeLeaves(env: Env, source: string, rule: StartRule, lex: string -> LexResult)
    ensures var r := ParseTree(env, source, rule, lex);
            r.Value? && Lossless(r.value, rule == AggregationRule, false) ==> Leaves(r.value) == Spans(lex(source).tokens)
  {
    assert SyntaxBackend == TreeBackend(false);
    EntryLeaves(env, lex(source).tokens, rule, false);
  }
}
