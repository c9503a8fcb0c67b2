/** The tokens the (external) lexer hands to the grammar. */
module Tokens {

  /** Token categories. Concrete operator and aggregation keywords are represented
      by their category together with the token's image. */
  datatype TokenKind =
    | AdditiveOperator
    | MultiplicativeOperator
    | Aggregation
    | Identifier
    | StringLiteral
    | NumberLiteral
    | LParen
    | RParen
    | Comma

  /** A lexed token: its category, its literal text and its start/end offsets. */
  datatype Token = Token(kind: TokenKind, image: string, start: int, end: int)

  /** What the lexer returns: the tokens it recognised and how many lexing errors it met. */
  datatype LexResult = LexResult(tokens: seq<Token>, errors: nat)

  /** A token's text and offsets, without its category. */
  datatype Span = Span(text: string, start: int, end: int)

  function SpanOf(t: Token): Span {
    Span(t.image, t.start, t.end)
  }

  function Spans(ts: seq<Token>): (r: seq<Span>)
    ensures |r| == |ts|
    ensures forall i :: 0 <= i < |ts| ==> r[i] == SpanOf(ts[i])
  {
    if |ts| == 0 then [] else [SpanOf(ts[0])] + Spans(ts[1..])
  }

  lemma {:induction false} SpansAppend(a: seq<Token>, b: seq<Token>)
    ensures Spans(a + b) == Spans(a) + Spans(b)
  {
  }

  /** The first tokens of `ts` that are not in its suffix `rest`. */
  function Consumed(ts: seq<Token>, rest: seq<Token>): seq<Token>
    requires |rest| <= |ts|
  {
    ts[..|ts| - |rest|]
  }

  /** `rest` is what remains of `ts` after some tokens were consumed from its front. */
  predicate IsSuffix(rest: seq<Token>, ts: seq<Token>) {
    |rest| <= |ts| && rest == ts[|ts| - |rest|..]
  }

  /** `rest` is what remains of `ts` after at least one token was consumed. */
  predicate IsStrictSuffix(rest: seq<Token>, ts: seq<Token>) {
    IsSuffix(rest, ts) && |rest| < |ts|
  }

  /** A suffix of a suffix is a suffix. */
  lemma SuffixChain(c: seq<Token>, b: seq<Token>, a: seq<Token>)
    requires IsSuffix(c, b) && IsSuffix(b, a)
    ensures IsSuffix(c, a)
  {
    assert b[|b| - |c|..] == a[|a| - |c|..];
  }

  /** What is left after one token and then some more is a suffix. */
  lemma StepSuffix(c: seq<Token>, b: seq<Token>, a: seq<Token>)
    requires |a| > 0 && IsSuffix(c, b) && IsSuffix(b, a[1..])
    ensures IsSuffix(c, a)
  {
    SuffixChain(c, b, a[1..]);
    assert a[1..][|a| - 1 - |c|..] == a[|a| - |c|..];
  }

  lemma SuffixTransitive(c: seq<Token>, b: seq<Token>, a: seq<Token>)
    requires IsSuffix(c, b) && IsSuffix(b, a)
    ensures IsSuffix(c, a)
    ensures Consumed(a, c) == Consumed(a, b) + Consumed(b, c)
  {
    assert a == Consumed(a, b) + b;
    assert b == Consumed(b, c) + c;
  }
}
