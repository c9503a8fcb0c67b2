/** MBQL values as the compiler backend builds them, and its operator collapsing. */
module Mbql {
  import opened Tokens

  /** A JavaScript value in an MBQL expression: a string, a number kept as its literal text,
      a numeric id, `undefined`, or an array. */
  datatype MbqlExpr =
    | MString(s: string)
    | MNumber(literal: string)
    | MId(id: int)
    | MUndefined
    | MList(items: seq<MbqlExpr>)

  /** The accumulated expression is an array whose first element is the string `op`. */
  predicate HeadedBy(e: MbqlExpr, op: string) {
    e.MList? && |e.items| > 0 && e.items[0] == MString(op)
  }

  /** One round of the compiler's `_math` loop. */
  function MathStep(acc: MbqlExpr, operation: (Token, MbqlExpr)): (r: MbqlExpr)
    ensures HeadedBy(r, operation.0.image)
  {
    var (op, rhs) := operation;
    if HeadedBy(acc, op.image) then MList(acc.items + [rhs])
    else MList([MString(op.image), acc, rhs])
  }

  /** The value the compiler's `_math` builds from `initial` and the (operator, operand)
      pairs of one precedence level, read as a left fold. */
  function Math(initial: MbqlExpr, operations: seq<(Token, MbqlExpr)>): (r: MbqlExpr)
    decreases |operations|
    ensures |operations| == 0 ==> r == initial
    ensures |operations| > 0 ==> HeadedBy(r, operations[|operations| - 1].0.image)
  {
    if |operations| == 0 then initial
    else MathStep(Math(initial, operations[..|operations| - 1]), operations[|operations| - 1])
  }

  /** The compiler's `_math`: walks the operations and either pushes the operand onto the
      accumulated array (same operator) or wraps the accumulator in a new array. */
  method MathInPlace(initial: MbqlExpr, operations: seq<(Token, MbqlExpr)>) returns (r: MbqlExpr)
    ensures r == Math(initial, operations)
  {
    r := initial;
    var i := 0;
    while i < |operations|
      invariant 0 <= i <= |operations|
      invariant r == Math(initial, operations[..i])
    {
      var (op, rhsVal) := operations[i];
      if r.MList? && |r.items| > 0 && r.items[0] == MString(op.image) {
        r := MList(r.items + [rhsVal]);
      } else {
        r := MList([MString(op.image), r, rhsVal]);
      }
      assert operations[..i + 1][..i] == operations[..i];
      i := i + 1;
    }
    assert operations[..i] == operations;
  }

  /** The operands of a list of operations, in order. */
  function Operands(operations: seq<(Token, MbqlExpr)>): (r: seq<MbqlExpr>)
    ensures |r| == |operations|
    ensures forall i :: 0 <= i < |operations| ==> r[i] == operations[i].1
  {
    seq(|operations|, i requires 0 <= i < |operations| => operations[i].1)
  }

  /** A run of n operations that all use the operator `op`, starting from a value that is not
      already an `op` array, collapses into ONE array holding `op` and the n + 1 operands. */
  lemma {:induction false} MathCollapsesChain(initial: MbqlExpr, operations: seq<(Token, MbqlExpr)>, op: string)
    requires |operations| > 0
    requires forall i :: 0 <= i < |operations| ==> operations[i].0.image == op
    requires !HeadedBy(initial, op)
    ensures Math(initial, operations) == MList([MString(op), initial] + Operands(operations))
  {
    var n := |operations|;
    var prefix := operations[..n - 1];
    if n == 1 {
      assert Math(initial, prefix) == initial;
    } else {
      MathCollapsesChain(initial, prefix, op);
      assert Operands(operations) == Operands(prefix) + [operations[n - 1].1];
    }
  }

  /** The binary, left-nested reading of a chain: ((initial op1 a1) op2 a2) ... */
  function LeftNested(initial: MbqlExpr, operations: seq<(Token, MbqlExpr)>): MbqlExpr
    decreases |operations|
  {
    if |operations| == 0 then initial
    else
      var (op, rhs) := operations[|operations| - 1];
      MList([MString(op.image), LeftNested(initial, operations[..|operations| - 1]), rhs])
  }

  /** When neighbouring operators always differ (and the start value is not already an array
      of the first operator), nothing collapses: the result is the binary left-nested tree. */
  lemma {:induction false} MathAlternatingIsBinary(initial: MbqlExpr, operations: seq<(Token, MbqlExpr)>)
    requires |operations| > 0 ==> !HeadedBy(initial, operations[0].0.image)
    requires forall i :: 0 < i < |operations| ==> operations[i - 1].0.image != operations[i].0.image
    ensures Math(initial, operations) == LeftNested(initial, operations)
  {
    var n := |operations|;
    if n > 0 {
      var prefix := operations[..n - 1];
      MathAlternatingIsBinary(initial, prefix);
      if n > 1 {
        assert HeadedBy(Math(initial, prefix), operations[n - 2].0.image);
        assert operations[n - 2].0.image != operations[n - 1].0.image;
      }
    }
  }

  /** Folding two runs of operations one after the other is folding their concatenation:
      a chain split by a parenthesised prefix `(a + b) + c` still collapses. */
  lemma {:induction false} MathAppend(initial: MbqlExpr, xs: seq<(Token, MbqlExpr)>, ys: seq<(Token, MbqlExpr)>)
    ensures Math(initial, xs + ys) == Math(Math(initial, xs), ys)
    decreases |ys|
  {
    if |ys| == 0 {
      assert xs + ys == xs;
    } else {
      var n := |ys|;
      assert (xs + ys)[..|xs + ys| - 1] == xs + ys[..n - 1];
      MathAppend(initial, xs, ys[..n - 1]);
    }
  }
}
