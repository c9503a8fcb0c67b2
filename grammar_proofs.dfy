/** Properties of the grammar that hold whatever backend drives it. */
module GrammarProofs {
  import opened Wrappers
  import opened Tokens
  import opened Grammar

  predicate NoAggregationToken(ts: seq<Token>) {
    forall i :: 0 <= i < |ts| ==> ts[i].kind != Aggregation
  }

  lemma NoAggregationTokenConcat(a: seq<Token>, b: seq<Token>)
    requires NoAggregationToken(a) && NoAggregationToken(b)
    ensures NoAggregationToken(a + b)
  {
  }

  /** The tokens consumed by a rule that reads one token, then runs two sub-parsers in turn. */
  lemma NoAggregationAfterToken(ts: seq<Token>, mid: seq<Token>, rest: seq<Token>)
    requires |ts| > 0 && ts[0].kind != Aggregation
    requires IsSuffix(mid, ts[1..]) && IsSuffix(rest, mid)
    requires NoAggregationToken(Consumed(ts[1..], mid)) && NoAggregationToken(Consumed(mid, rest))
    ensures IsSuffix(rest, ts) && NoAggregationToken(Consumed(ts, rest))
  {
    SuffixTransitive(rest, mid, ts[1..]);
    SuffixTransitive(rest, ts[1..], ts);
    assert Consumed(ts, ts[1..]) == [ts[0]];
  }

  // With the flag clear (a plain formula, and every aggregation argument), no aggregation
  // keyword is ever consumed: the gate of `atomicExpression` closes that alternative and no
  // rule sets the flag again.

  lemma {:induction false} ExpressionHasNoAggregation<V>(b: Backend<V>, env: Env, ts: seq<Token>)
    ensures var r := Expression(b, env, ts, false);
            r.Parsed? ==> NoAggregationToken(Consumed(ts, r.rest))
    decreases |ts|, 6
  {
    AdditiveHasNoAggregation(b, env, ts);
  }

  lemma {:induction false} AdditiveHasNoAggregation<V>(b: Backend<V>, env: Env, ts: seq<Token>)
    ensures var r := Additive(b, env, ts, false);
            r.Parsed? ==> NoAggregationToken(Consumed(ts, r.rest))
    decreases |ts|, 5
  {
    var m := Multiplicative(b, env, ts, false);
    MultiplicativeHasNoAggregation(b, env, ts);
    if m.Parsed? {
      var ops := AdditiveOperations(b, env, m.rest, false);
      AdditiveOperationsHaveNoAggregation(b, env, m.rest);
      if ops.Parsed? {
        SuffixTransitive(ops.rest, m.rest, ts);
        NoAggregationTokenConcat(Consumed(ts, m.rest), Consumed(m.rest, ops.rest));
      }
    }
  }

  lemma {:induction false} AdditiveOperationsHaveNoAggregation<V>(b: Backend<V>, env: Env, ts: seq<Token>)
    ensures var r := AdditiveOperations(b, env, ts, false);
            r.Parsed? ==> NoAggregationToken(Consumed(ts, r.rest))
    decreases |ts|, 5
  {
    if NextIs(ts, AdditiveOperator) {
      var m := Multiplicative(b, env, ts[1..], false);
      MultiplicativeHasNoAggregation(b, env, ts[1..]);
      if m.Parsed? {
        var ops := AdditiveOperations(b, env, m.rest, false);
        AdditiveOperationsHaveNoAggregation(b, env, m.rest);
        if ops.Parsed? {
          NoAggregationAfterToken(ts, m.rest, ops.rest);
        }
      }
    }
  }

  lemma {:induction false} MultiplicativeHasNoAggregation<V>(b: Backend<V>, env: Env, ts: seq<Token>)
    ensures var r := Multiplicative(b, env, ts, false);
            r.Parsed? ==> NoAggregationToken(Consumed(ts, r.rest))
    decreases |ts|, 4
  {
    var a := Atomic(b, env, ts, false);
    AtomicHasNoAggregation(b, env, ts);
    if a.Parsed? {
      var ops := MultiplicativeOperations(b, env, a.rest, false);
      MultiplicativeOperationsHaveNoAggregation(b, env, a.rest);
      if ops.Parsed? {
        SuffixTransitive(ops.rest, a.rest, ts);
        NoAggregationTokenConcat(Consumed(ts, a.rest), Consumed(a.rest, ops.rest));
      }
    }
  }

  lemma {:induction false} MultiplicativeOperationsHaveNoAggregation<V>(b: Backend<V>, env: Env, ts: seq<Token>)
    ensures var r := MultiplicativeOperations(b, env, ts, false);
            r.Parsed? ==> NoAggregationToken(Consumed(ts, r.rest))
    decreases |ts|, 4
  {
    if NextIs(ts, MultiplicativeOperator) {
      var a := Atomic(b, env, ts[1..], false);
      AtomicHasNoAggregation(b, env, ts[1..]);
      if a.Parsed? {
        var ops := MultiplicativeOperations(b, env, a.rest, false);
        MultiplicativeOperationsHaveNoAggregation(b, env, a.rest);
        if ops.Parsed? {
          NoAggregationAfterToken(ts, a.rest, ops.rest);
        }
      }
    }
  }

  lemma {:induction false} AtomicHasNoAggregation<V>(b: Backend<V>, env: Env, ts: seq<Token>)
    ensures var r := Atomic(b, env, ts, false);
            r.Parsed? ==> NoAggregationToken(Consumed(ts, r.rest))
    decreases |ts|, 3
  {
    if |ts| > 0 && ts[0].kind == LParen {
      ParenthesisHasNoAggregation(b, env, ts);
    }
  }

  lemma {:induction false} ParenthesisHasNoAggregation<V>(b: Backend<V>, env: Env, ts: seq<Token>)
    ensures var r := Parenthesis(b, env, ts, false);
            r.Parsed? ==> NoAggregationToken(Consumed(ts, r.rest))
    decreases |ts|, 1
  {
    if NextIs(ts, LParen) {
      var e := Expression(b, env, ts[1..], false);
      ExpressionHasNoAggregation(b, env, ts[1..]);
      if e.Parsed? && NextIs(e.rest, RParen) {
        SuffixTransitive(e.rest[1..], e.rest, ts[1..]);
        SuffixTransitive(e.rest[1..], ts[1..], ts);
        assert Consumed(ts, ts[1..]) == [ts[0]];
        assert Consumed(e.rest, e.rest[1..]) == [e.rest[0]];
        NoAggregationTokenConcat(Consumed(ts[1..], e.rest), [e.rest[0]]);
        NoAggregationTokenConcat([ts[0]], Consumed(ts[1..], e.rest[1..]));
      }
    }
  }

  /** A plain formula never contains an aggregation keyword: `Sum(x)` is not a formula. */
  lemma FormulaHasNoAggregation<V>(b: Backend<V>, env: Env, ts: seq<Token>)
    requires Invoke(b, env, ts, ExpressionRule).Value?
    ensures NoAggregationToken(ts)
  {
    ExpressionHasNoAggregation(b, env, ts);
    assert Consumed(ts, []) == ts;
  }

  /** Two parses agree when one of them was stopped by a thrown error, or both consumed the
      same tokens, or both stopped at the same recognition error. */
  predicate Agree<S, T>(r1: Parse<S>, r2: Parse<T>) {
    || (r1.Failed? && r1.failure.Thrown?)
    || (r2.Failed? && r2.failure.Thrown?)
    || (r1.Parsed? && r2.Parsed? && r1.rest == r2.rest)
    || (r1.Failed? && r2.Failed? && r1.failure == r2.failure)
  }

  // Which tokens a rule consumes, and where it reports a recognition error, do not depend on
  // the backend: callbacks only build values (or throw).

  lemma {:induction false} ExpressionAgrees<S, T>(b1: Backend<S>, b2: Backend<T>, env: Env, ts: seq<Token>, outside: bool)
    ensures Agree(Expression(b1, env, ts, outside), Expression(b2, env, ts, outside))
    decreases |ts|, 6
  {
    AdditiveAgrees(b1, b2, env, ts, outside);
  }

  lemma {:induction false} AdditiveAgrees<S, T>(b1: Backend<S>, b2: Backend<T>, env: Env, ts: seq<Token>, outside: bool)
    ensures Agree(Additive(b1, env, ts, outside), Additive(b2, env, ts, outside))
    decreases |ts|, 5
  {
    MultiplicativeAgrees(b1, b2, env, ts, outside);
    var m1, m2 := Multiplicative(b1, env, ts, outside), Multiplicative(b2, env, ts, outside);
    if m1.Parsed? && m2.Parsed? {
      AdditiveOperationsAgree(b1, b2, env, m1.rest, outside);
    }
  }

  lemma {:induction false} AdditiveOperationsAgree<S, T>(b1: Backend<S>, b2: Backend<T>, env: Env, ts: seq<Token>, outside: bool)
    ensures Agree(AdditiveOperations(b1, env, ts, outside), AdditiveOperations(b2, env, ts, outside))
    decreases |ts|, 5
  {
    if NextIs(ts, AdditiveOperator) {
      MultiplicativeAgrees(b1, b2, env, ts[1..], outside);
      var m1, m2 := Multiplicative(b1, env, ts[1..], outside), Multiplicative(b2, env, ts[1..], outside);
      if m1.Parsed? && m2.Parsed? {
        AdditiveOperationsAgree(b1, b2, env, m1.rest, outside);
      }
    }
  }

  lemma {:induction false} MultiplicativeAgrees<S, T>(b1: Backend<S>, b2: Backend<T>, env: Env, ts: seq<Token>, outside: bool)
    ensures Agree(Multiplicative(b1, env, ts, outside), Multiplicative(b2, env, ts, outside))
    decreases |ts|, 4
  {
    AtomicAgrees(b1, b2, env, ts, outside);
    var a1, a2 := Atomic(b1, env, ts, outside), Atomic(b2, env, ts, outside);
    if a1.Parsed? && a2.Parsed? {
      MultiplicativeOperationsAgree(b1, b2, env, a1.rest, outside);
    }
  }

  lemma {:induction false} MultiplicativeOperationsAgree<S, T>(b1: Backend<S>, b2: Backend<T>, env: Env, ts: seq<Token>, outside: bool)
    ensures Agree(MultiplicativeOperations(b1, env, ts, outside), MultiplicativeOperations(b2, env, ts, outside))
    decreases |ts|, 4
  {
    if NextIs(ts, MultiplicativeOperator) {
      AtomicAgrees(b1, b2, env, ts[1..], outside);
      var a1, a2 := Atomic(b1, env, ts[1..], outside), Atomic(b2, env, ts[1..], outside);
      if a1.Parsed? && a2.Parsed? {
        MultiplicativeOperationsAgree(b1, b2, env, a1.rest, outside);
      }
    }
  }

  lemma {:induction false} AtomicAgrees<S, T>(b1: Backend<S>, b2: Backend<T>, env: Env, ts: seq<Token>, outside: bool)
    ensures Agree(Atomic(b1, env, ts, outside), Atomic(b2, env, ts, outside))
    decreases |ts|, 3
  {
    if |ts| > 0 {
      if outside && (ts[0].kind == Aggregation || ts[0].kind == Identifier) {
        AggregationOrMetricAgrees(b1, b2, env, ts);
      } else if !outside && (ts[0].kind == StringLiteral || ts[0].kind == Identifier) {
        FieldExpressionAgrees(b1, b2, env, ts);
      } else if ts[0].kind == LParen {
        ParenthesisAgrees(b1, b2, env, ts, outside);
      }
    }
  }

  lemma {:induction false} AggregationOrMetricAgrees<S, T>(b1: Backend<S>, b2: Backend<T>, env: Env, ts: seq<Token>)
    ensures Agree(AggregationOrMetric(b1, env, ts), AggregationOrMetric(b2, env, ts))
    decreases |ts|, 2
  {
    if NextIs(ts, Aggregation) {
      AggregationExpressionAgrees(b1, b2, env, ts);
    } else if NextIs(ts, Identifier) {
      MetricExpressionAgrees(b1, b2, env, ts);
    }
  }

  lemma {:induction false} AggregationExpressionAgrees<S, T>(b1: Backend<S>, b2: Backend<T>, env: Env, ts: seq<Token>)
    ensures Agree(AggregationExpression(b1, env, ts), AggregationExpression(b2, env, ts))
    decreases |ts|, 1
  {
    if NextIs(ts, Aggregation) && NextIs(ts[1..], LParen) {
      ArgumentsAgree(b1, b2, env, ts[2..]);
      AggregationExpressionUnfolds(b1, env, ts);
      AggregationExpressionUnfolds(b2, env, ts);
    }
  }

  /** How an aggregation call ends once its keyword and `(` are there: as its argument list
      failed, at a missing `)`, or with the tokens after the `)`. */
  lemma AggregationExpressionUnfolds<V>(b: Backend<V>, env: Env, ts: seq<Token>)
    requires NextIs(ts, Aggregation) && NextIs(ts[1..], LParen)
    ensures var a, r := Arguments(b, env, ts[2..]), AggregationExpression(b, env, ts);
            && (a.Failed? ==> r == Failed(a.failure))
            && (a.Parsed? && !NextIs(a.rest, RParen) ==> r == Mismatch(RParen, a.rest))
            && (a.Parsed? && NextIs(a.rest, RParen) ==> r.Parsed? && r.rest == a.rest[1..])
  {
  }

  lemma MetricExpressionAgrees<S, T>(b1: Backend<S>, b2: Backend<T>, env: Env, ts: seq<Token>)
    ensures Agree(MetricExpression(b1, env, ts), MetricExpression(b2, env, ts))
  {
  }

  lemma FieldExpressionAgrees<S, T>(b1: Backend<S>, b2: Backend<T>, env: Env, ts: seq<Token>)
    ensures Agree(FieldExpression(b1, env, ts), FieldExpression(b2, env, ts))
  {
  }

  lemma {:induction false} ParenthesisAgrees<S, T>(b1: Backend<S>, b2: Backend<T>, env: Env, ts: seq<Token>, outside: bool)
    ensures Agree(Parenthesis(b1, env, ts, outside), Parenthesis(b2, env, ts, outside))
    decreases |ts|, 1
  {
    if NextIs(ts, LParen) {
      ExpressionAgrees(b1, b2, env, ts[1..], outside);
    }
  }

  lemma {:induction false} ArgumentsAgree<S, T>(b1: Backend<S>, b2: Backend<T>, env: Env, ts: seq<Token>)
    ensures Agree(Arguments(b1, env, ts), Arguments(b2, env, ts))
    decreases |ts|, 7
  {
    if |ts| > 0 && StartsExpression(ts[0].kind) {
      ExpressionAgrees(b1, b2, env, ts, false);
      var e1, e2 := Expression(b1, env, ts, false), Expression(b2, env, ts, false);
      if e1.Parsed? && e2.Parsed? {
        MoreArgumentsAgree(b1, b2, env, e1.rest);
      }
    }
  }

  lemma {:induction false} MoreArgumentsAgree<S, T>(b1: Backend<S>, b2: Backend<T>, env: Env, ts: seq<Token>)
    ensures Agree(MoreArguments(b1, env, ts), MoreArguments(b2, env, ts))
    decreases |ts|, 7
  {
    if NextIs(ts, Comma) {
      ExpressionAgrees(b1, b2, env, ts[1..], false);
      var e1, e2 := Expression(b1, env, ts[1..], false), Expression(b2, env, ts[1..], false);
      if e1.Parsed? && e2.Parsed? {
        MoreArgumentsAgree(b1, b2, env, e1.rest);
      }
    }
  }

  /** Whatever the backends, `run` over the same tokens gives a value for both, or the same
      error list for both, unless a callback of one of them threw. */
  lemma InvokeAgrees<S, T>(b1: Backend<S>, b2: Backend<T>, env: Env, ts: seq<Token>, rule: StartRule)
    ensures var o1, o2 := Invoke(b1, env, ts, rule), Invoke(b2, env, ts, rule);
            o1.Raised? || o2.Raised? || (o1.Value? && o2.Value?) || (o1.SyntaxErrors? && o2.SyntaxErrors? && o1.errors == o2.errors)
  {
    match rule
    case ExpressionRule => ExpressionAgrees(b1, b2, env, ts, false);
    case AggregationRule => AdditiveAgrees(b1, b2, env, ts, true);
  }
}
