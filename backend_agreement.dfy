/** How `compile` and `parse` relate on the same source: they succeed and fail together,
    except that `compile` throws on a name it cannot resolve where `parse` builds an
    `unknown` node. */
module BackendAgreement {
  import opened Tokens
  import opened Grammar
  import opened Mbql
  import opened Compiler
  import opened SyntaxTree
  import GrammarProofs
  import SyntaxGating

  /** A source that compiles also parses. */
  lemma CompiledSourceParses(env: Env, source: string, rule: StartRule, lex: string -> LexResult)
    ensures Compile(env, source, rule, lex).Value? ==> ParseTree(env, source, rule, lex).Value?
  {
    if source != "" {
      GrammarProofs.InvokeAgrees(MbqlBackend, SyntaxBackend, env, lex(source).tokens, rule);
      SyntaxGating.ParseTreeIsGated(env, source, rule, lex);
    }
  }

  /** A source that parses either compiles or makes the compiler throw. */
  lemma ParsedSourceCompilesOrRaises(env: Env, source: string, rule: StartRule, lex: string -> LexResult)
    ensures ParseTree(env, source, rule, lex).Value? ==>
              Compile(env, source, rule, lex).Value? || Compile(env, source, rule, lex).Raised?
  {
    if source != "" {
      GrammarProofs.InvokeAgrees(MbqlBackend, SyntaxBackend, env, lex(source).tokens, rule);
    }
  }

  /** Recognition errors are the same for both: the compiler reports exactly the errors of the
      syntax parser, unless it threw on an unknown name first. */
  lemma SameSyntaxErrors(env: Env, source: string, rule: StartRule, lex: string -> LexResult)
    ensures Compile(env, source, rule, lex).SyntaxErrors? ==>
              ParseTree(env, source, rule, lex).SyntaxErrors?
              && ParseTree(env, source, rule, lex).errors == Compile(env, source, rule, lex).errors
    ensures ParseTree(env, source, rule, lex).SyntaxErrors? ==>
              Compile(env, source, rule, lex).Raised?
              || (Compile(env, source, rule, lex).SyntaxErrors?
                  && ParseTree(env, source, rule, lex).errors == Compile(env, source, rule, lex).errors)
  {
    if source != "" {
      GrammarProofs.InvokeAgrees(MbqlBackend, SyntaxBackend, env, lex(source).tokens, rule);
      SyntaxGating.ParseTreeIsGated(env, source, rule, lex);
    }
  }
}
