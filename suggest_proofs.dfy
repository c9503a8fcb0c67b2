/** Properties of `suggest`, stated about `Suggestions.SuggestSpec` (which the method
    `Suggestions.Suggest` is proved to compute). */
module SuggestProofs {
  import opened Wrappers
  import opened Tokens
  import opened Metadata
  import opened Grammar
  import opened Ordering
  import opened Suggestions

  /** Whether the content-assist result `a` may give rise to a suggestion of kind `kind`:
      operators for operator kinds, parentheses for parenthesis kinds, fields and custom
      expressions for identifier and string positions inside an aggregation (or under the
      `expression` rule), aggregations and metrics for aggregation positions outside one. */
  predicate Produces(startRule: StartRule, a: Assist, kind: SuggestionType) {
    match kind
    case Operators => a.nextTokenType == AdditiveOperator || a.nextTokenType == MultiplicativeOperator
    case Other => a.nextTokenType == LParen || a.nextTokenType == RParen
    case Fields =>
      (a.nextTokenType == Identifier || a.nextTokenType == StringLiteral) && !OutsideAggregation(startRule, a.ruleStack)
    case Aggregations => a.nextTokenType == Aggregation && OutsideAggregation(startRule, a.ruleStack)
    case Metrics => a.nextTokenType == Aggregation && OutsideAggregation(startRule, a.ruleStack)
  }

  /** Lower-casing leaves no upper-case ASCII letter, changes a string with none, and so is
      idempotent: the filter's lower-cased partial identifier is unchanged by lower-casing it
      again. */
  lemma LowerProperties(s: string)
    ensures forall i :: 0 <= i < |s| ==> !('A' <= Lower(s)[i] <= 'Z')
    ensures (forall i :: 0 <= i < |s| ==> !('A' <= s[i] <= 'Z')) ==> Lower(s) == s
    ensures Lower(Lower(s)) == Lower(s)
  {
    var l := Lower(s);
    assert forall i :: 0 <= i < |l| ==> Lower(l)[i] == l[i];
  }

  /** Every suggestion an assist expands to has a kind that assist produces, a non-empty text,
      and neither a prefix length nor an index yet. */
  lemma ExpandProduces(ctx: Context, a: Assist)
    ensures forall s :: s in Expand(ctx, a) ==>
              Produces(ctx.startRule, a, s.kind) && s.text != "" && s.prefixLength.None? && s.index.None?
  {
    var fmt := ctx.services.fmt;
    var outside := OutsideAggregation(ctx.startRule, a.ruleStack);
    var k := a.nextTokenType;
    if k == Aggregation {
      if outside {
        CallSuggestionsShape(fmt, ctx.table.aggregationOptions, ctx.table.metrics);
      }
    } else if k == Identifier || k == StringLiteral {
      if !outside {
        NameSuggestionsShape(fmt, CandidateFields(ctx), ctx.customFields);
      }
    } else if k == AdditiveOperator || k == MultiplicativeOperator {
      OperatorSuggestionsShape(ctx.services.subTokenSources(k));
    }
  }

  lemma CallSuggestionsShape(fmt: Formatters, options: seq<AggregationOption>, metrics: seq<Metric>)
    ensures forall s :: s in AggregationSuggestions(fmt, options) + MetricSuggestions(fmt, metrics) ==>
              (s.kind == Aggregations || s.kind == Metrics) && s.text != "" && s.prefixLength.None? && s.index.None?
  {
    var aggs := AggregationSuggestions(fmt, options);
    var calls := MetricSuggestions(fmt, metrics);
    forall s: Suggestion | s in aggs + calls
      ensures (s.kind == Aggregations || s.kind == Metrics) && s.text != "" && s.prefixLength.None? && s.index.None?
    {
      if s in aggs {
        var o :| o in options && fmt.aggregationName(o) != "" && s == AggregationSuggestion(fmt, o);
        assert s.text[|fmt.aggregationName(o)|] == '(';
      } else {
        var i :| 0 <= i < |calls| && calls[i] == s;
        assert s.text[|s.text| - 1] == ')';
      }
    }
  }

  lemma NameSuggestionsShape(fmt: Formatters, fields: seq<Field>, customFields: seq<CustomField>)
    ensures forall s :: s in FieldSuggestions(fmt, fields) + ExpressionSuggestions(fmt, customFields) ==>
              s.kind == Fields && s.text != "" && s.prefixLength.None? && s.index.None?
  {
    var named := FieldSuggestions(fmt, fields);
    var expressions := ExpressionSuggestions(fmt, customFields);
    forall s: Suggestion | s in named + expressions
      ensures s.kind == Fields && s.text != "" && s.prefixLength.None? && s.index.None?
    {
      if s in named {
        var i :| 0 <= i < |named| && named[i] == s;
      } else {
        var i :| 0 <= i < |expressions| && expressions[i] == s;
      }
      assert s.text[|s.text| - 1] == ' ';
    }
  }

  lemma OperatorSuggestionsShape(patterns: seq<string>)
    ensures forall s :: s in OperatorSuggestions(patterns) ==>
              s.kind == Operators && s.text != "" && s.prefixLength.None? && s.index.None?
  {
    var ops := OperatorSuggestions(patterns);
    forall s | s in ops
      ensures s.kind == Operators && s.text != "" && s.prefixLength.None? && s.index.None?
    {
      var i :| 0 <= i < |ops| && ops[i] == s;
      assert s.text[0] == ' ';
    }
  }

  /** The suggestions of all assists are exactly those of each assist. */
  lemma {:induction false} ExpandAllMembers(ctx: Context, assists: seq<Assist>)
    ensures forall s :: s in ExpandAll(ctx, assists) <==> exists i :: 0 <= i < |assists| && s in Expand(ctx, assists[i])
    decreases |assists|
  {
    if |assists| > 0 {
      var n := |assists| - 1;
      ExpandAllMembers(ctx, assists[..n]);
      assert forall i :: 0 <= i < n ==> assists[..n][i] == assists[i];
    }
  }

  /** What the filter leaves: each element comes from a candidate with the same kind, name and
      text; in partial mode that candidate matches the partial identifier and the element records
      its length, otherwise the element is the candidate itself. */
  lemma FilteredFrom(candidates: seq<Suggestion>, tokens: seq<Token>, partialSource: string)
    ensures forall x :: x in Filtered(candidates, tokens, partialSource) ==>
              exists c :: c in candidates && c.kind == x.kind && c.name == x.name && c.text == x.text
                          && (InPartialMode(tokens, partialSource) ==>
                                MatchesPartial(c, Partial(tokens)) && x.prefixLength == Some(|Partial(tokens)|))
                          && (!InPartialMode(tokens, partialSource) ==> x == c)
  {
    if InPartialMode(tokens, partialSource) {
      var partial := Partial(tokens);
      var kept := KeepMatching(candidates, partial);
      var filtered := WithPrefixLength(kept, |partial|);
      forall x | x in filtered
        ensures exists c :: c in candidates && c.kind == x.kind && c.name == x.name && c.text == x.text
                            && MatchesPartial(c, partial) && x.prefixLength == Some(|partial|)
      {
        var i :| 0 <= i < |filtered| && filtered[i] == x;
        assert kept[i] in kept;
      }
    }
  }

  /** Every candidate the filter admits leaves an element with its text. */
  lemma FilteredKeeps(candidates: seq<Suggestion>, tokens: seq<Token>, partialSource: string, c: Suggestion)
    requires c in candidates
    requires InPartialMode(tokens, partialSource) ==> MatchesPartial(c, Partial(tokens))
    ensures exists x :: x in Filtered(candidates, tokens, partialSource) && x.text == c.text
  {
    if InPartialMode(tokens, partialSource) {
      var partial := Partial(tokens);
      var kept := KeepMatching(candidates, partial);
      var filtered := WithPrefixLength(kept, |partial|);
      var i :| 0 <= i < |kept| && kept[i] == c;
      assert filtered[i] in filtered;
    } else {
      assert c in Filtered(candidates, tokens, partialSource);
    }
  }

  /** Every stamped suggestion is a stamp of an input one. */
  lemma StampAllFrom(xs: seq<Suggestion>, index: int)
    ensures forall y :: y in StampAll(xs, index) ==> exists x :: x in xs && y == Stamp(x, index)
    ensures forall x :: x in xs ==> Stamp(x, index) in StampAll(xs, index)
  {
    var r := StampAll(xs, index);
    forall y | y in r
      ensures exists x :: x in xs && y == Stamp(x, index)
    {
      var i :| 0 <= i < |r| && r[i] == y;
      assert xs[i] in xs;
    }
    forall x | x in xs
      ensures Stamp(x, index) in r
    {
      var i :| 0 <= i < |xs| && xs[i] == x;
      assert r[i] == Stamp(x, index);
    }
  }

  /** The final de-duplication and sort keep only input elements. */
  lemma FinishMembers(xs: seq<Suggestion>)
    ensures forall y :: y in Finish(xs) ==> y in xs
  {
    var unique := UniqBy(xs, TextOf);
    UniqByKeeps(xs, TextOf);
    var once := SortBy(unique, NameOf);
    assert multiset(Finish(xs)) == multiset(once) == multiset(unique);
    forall y | y in Finish(xs)
      ensures y in xs
    {
      assert y in multiset(unique);
      assert IsFirstWithKey(xs, TextOf, y);
    }
  }

  /** Every text of the input survives the de-duplication and sort. */
  lemma FinishKeepsTexts(xs: seq<Suggestion>)
    ensures forall x :: x in xs ==> x.text in Keys(Finish(xs), TextOf)
  {
    var unique := UniqBy(xs, TextOf);
    var out := Finish(xs);
    UniqByKeeps(xs, TextOf);
    var once := SortBy(unique, NameOf);
    assert multiset(out) == multiset(once) == multiset(unique);
    forall x | x in xs
      ensures x.text in Keys(out, TextOf)
    {
      var keys := Keys(unique, TextOf);
      assert TextOf(x) in keys;
      var i :| 0 <= i < |keys| && keys[i] == x.text;
      assert unique[i] in multiset(out);
      var j :| 0 <= j < |out| && out[j] == unique[i];
      assert Keys(out, TextOf)[j] == x.text;
    }
  }

  /** The output of the de-duplication and sort has one element per text, ordered by type and
      by name within a type. */
  lemma FinishDistinctSorted(xs: seq<Suggestion>)
    ensures DistinctBy(Finish(xs), TextOf)
    ensures SortedBy(Finish(xs), TypeOf)
    ensures forall k :: SortedBy(WithKey(Finish(xs), TypeOf, k), NameOf)
  {
    var unique := UniqBy(xs, TextOf);
    UniqByKeeps(xs, TextOf);
    SortTwiceIsLexicographic(unique, NameOf, TypeOf);
    SortByDistinct(unique, NameOf, TextOf);
    SortByDistinct(SortBy(unique, NameOf), TypeOf, TextOf);
  }

  /** Where each output suggestion of the pipeline after content assist comes from: a candidate
      with the same kind and text, stamped with the index, named by its text when it has no name,
      and in partial mode matching the partial identifier with its length recorded. */
  lemma PipelineFrom(candidates: seq<Suggestion>, tokens: seq<Token>, partialSource: string, index: int)
    ensures forall s :: s in Finish(StampAll(Filtered(candidates, tokens, partialSource), index)) ==>
              exists c :: c in candidates && c.kind == s.kind && c.text == s.text && s.index == Some(index)
                          && s.name == (if c.name == "" then c.text else c.name)
                          && (InPartialMode(tokens, partialSource) ==>
                                MatchesPartial(c, Partial(tokens)) && s.prefixLength == Some(|Partial(tokens)|))
                          && (!InPartialMode(tokens, partialSource) ==> s.prefixLength == c.prefixLength)
  {
    var filtered := Filtered(candidates, tokens, partialSource);
    var stamped := StampAll(filtered, index);
    FinishMembers(stamped);
    StampAllFrom(filtered, index);
    FilteredFrom(candidates, tokens, partialSource);
  }

  /** Every admitted candidate's text reaches the output of the pipeline after content assist. */
  lemma PipelineKeeps(candidates: seq<Suggestion>, tokens: seq<Token>, partialSource: string, index: int)
    ensures forall c :: c in candidates && (InPartialMode(tokens, partialSource) ==> MatchesPartial(c, Partial(tokens))) ==>
              c.text in Keys(Finish(StampAll(Filtered(candidates, tokens, partialSource), index)), TextOf)
  {
    var filtered := Filtered(candidates, tokens, partialSource);
    var stamped := StampAll(filtered, index);
    var out := Finish(stamped);
    forall c | c in candidates && (InPartialMode(tokens, partialSource) ==> MatchesPartial(c, Partial(tokens)))
      ensures c.text in Keys(out, TextOf)
    {
      FilteredKeeps(candidates, tokens, partialSource, c);
      var x :| x in filtered && x.text == c.text;
      var y := Stamp(x, index);
      StampAllFrom(filtered, index);
      assert y in stamped;
      FinishKeepsTexts(stamped);
      assert y.text in Keys(out, TextOf);
    }
  }

  /** The candidates have non-empty texts, no prefix length, and each comes from a content-assist
      result that produces its kind. */
  lemma CandidatesFrom(ctx: Context, assists: seq<Assist>)
    ensures forall c :: c in ExpandAll(ctx, assists) ==>
              c.text != "" && c.prefixLength.None? && exists a :: a in assists && Produces(ctx.startRule, a, c.kind)
  {
    ExpandAllMembers(ctx, assists);
    forall c | c in ExpandAll(ctx, assists)
      ensures c.text != "" && c.prefixLength.None? && exists a :: a in assists && Produces(ctx.startRule, a, c.kind)
    {
      var i :| 0 <= i < |assists| && c in Expand(ctx, assists[i]);
      ExpandProduces(ctx, assists[i]);
      assert assists[i] in assists;
    }
  }

  /** A source whose text before the cursor does not lex is refused with the lexing message,
      and only such a source is refused. */
  lemma LexingErrorIff(source: string, opts: SuggestOptions, services: Services)
    ensures SuggestSpec(source, opts, services).LexingError? <==> services.lex(PartialSource(source, opts)).errors > 0
    ensures SuggestSpec(source, opts, services).LexingError? ==>
              SuggestSpec(source, opts, services).message == LexingErrorMessage
  {
  }

  /** Every suggestion is stamped with the request's index and has a non-empty name. */
  lemma SuggestionsAreStamped(source: string, opts: SuggestOptions, services: Services)
    ensures var r := SuggestSpec(source, opts, services);
            r.Suggested? ==>
              forall s :: s in r.suggestions ==> s.index == Some(EffectiveIndex(source, opts)) && s.name != ""
  {
    var partialSource := PartialSource(source, opts);
    var lexResult := services.lex(partialSource);
    if lexResult.errors == 0 {
      var tokens := lexResult.tokens;
      var assistance := AssistanceTokens(tokens, partialSource);
      var candidates := Candidates(opts, services, assistance);
      var index := EffectiveIndex(source, opts);
      CandidatesFrom(ContextFor(opts, services, assistance), services.contentAssist(opts.startRule, assistance));
      PipelineFrom(candidates, tokens, partialSource, index);
    }
  }

  /** The result holds one suggestion per text, ordered by type and, within a type, by name. */
  lemma SuggestionsAreDistinctAndSorted(source: string, opts: SuggestOptions, services: Services)
    ensures var r := SuggestSpec(source, opts, services);
            r.Suggested? ==>
              && DistinctBy(r.suggestions, TextOf)
              && SortedBy(r.suggestions, TypeOf)
              && forall k :: SortedBy(WithKey(r.suggestions, TypeOf, k), NameOf)
  {
    var partialSource := PartialSource(source, opts);
    var lexResult := services.lex(partialSource);
    if lexResult.errors == 0 {
      var tokens := lexResult.tokens;
      var candidates := Candidates(opts, services, AssistanceTokens(tokens, partialSource));
      FinishDistinctSorted(StampAll(Filtered(candidates, tokens, partialSource), EffectiveIndex(source, opts)));
    }
  }

  /** In partial mode every suggestion's text or name starts with the lower-cased partial
      identifier, and records its length; otherwise no suggestion has a prefix length. */
  lemma SuggestionsMatchPartial(source: string, opts: SuggestOptions, services: Services)
    ensures var partialSource := PartialSource(source, opts);
            var lexResult := services.lex(partialSource);
            var r := SuggestSpec(source, opts, services);
            r.Suggested? ==>
              && (InPartialMode(lexResult.tokens, partialSource) ==>
                    forall s :: s in r.suggestions ==>
                      s.prefixLength == Some(|Partial(lexResult.tokens)|)
                      && (StartsWith(Lower(s.text), Partial(lexResult.tokens))
                          || StartsWith(Lower(s.name), Partial(lexResult.tokens))))
              && (!InPartialMode(lexResult.tokens, partialSource) ==>
                    forall s :: s in r.suggestions ==> s.prefixLength.None?)
  {
    var partialSource := PartialSource(source, opts);
    var lexResult := services.lex(partialSource);
    if lexResult.errors == 0 {
      var tokens := lexResult.tokens;
      var assistance := AssistanceTokens(tokens, partialSource);
      var candidates := Candidates(opts, services, assistance);
      var index := EffectiveIndex(source, opts);
      CandidatesFrom(ContextFor(opts, services, assistance), services.contentAssist(opts.startRule, assistance));
      PipelineFrom(candidates, tokens, partialSource, index);
    }
  }

  /** Every suggestion comes from some content-assist result that produces its kind: fields only
      where the position admits fields, aggregations and metrics only outside an aggregation. */
  lemma SuggestionsHaveProvenance(source: string, opts: SuggestOptions, services: Services)
    ensures var partialSource := PartialSource(source, opts);
            var assistance := AssistanceTokens(services.lex(partialSource).tokens, partialSource);
            var assists := services.contentAssist(opts.startRule, assistance);
            var r := SuggestSpec(source, opts, services);
            r.Suggested? ==>
              forall s :: s in r.suggestions ==> exists a :: a in assists && Produces(opts.startRule, a, s.kind)
  {
    var partialSource := PartialSource(source, opts);
    var lexResult := services.lex(partialSource);
    if lexResult.errors == 0 {
      var tokens := lexResult.tokens;
      var assistance := AssistanceTokens(tokens, partialSource);
      var candidates := Candidates(opts, services, assistance);
      var index := EffectiveIndex(source, opts);
      CandidatesFrom(ContextFor(opts, services, assistance), services.contentAssist(opts.startRule, assistance));
      PipelineFrom(candidates, tokens, partialSource, index);
    }
  }

  /** Nothing the filter admits is lost: the text of every expansion of every content-assist
      result (in partial mode, of every one matching the partial identifier) is the text of
      some suggestion. */
  lemma SuggestionsAreComplete(source: string, opts: SuggestOptions, services: Services)
    ensures var partialSource := PartialSource(source, opts);
            var tokens := services.lex(partialSource).tokens;
            var assistance := AssistanceTokens(tokens, partialSource);
            var ctx := ContextFor(opts, services, assistance);
            var assists := services.contentAssist(opts.startRule, assistance);
            var r := SuggestSpec(source, opts, services);
            r.Suggested? ==>
              forall i, c :: 0 <= i < |assists| && c in Expand(ctx, assists[i])
                             && (InPartialMode(tokens, partialSource) ==> MatchesPartial(c, Partial(tokens))) ==>
                c.text in Keys(r.suggestions, TextOf)
  {
    var partialSource := PartialSource(source, opts);
    var lexResult := services.lex(partialSource);
    if lexResult.errors == 0 {
      var tokens := lexResult.tokens;
      var assistance := AssistanceTokens(tokens, partialSource);
      ExpandAllMembers(ContextFor(opts, services, assistance), services.contentAssist(opts.startRule, assistance));
      PipelineKeeps(Candidates(opts, services, assistance), tokens, partialSource, EffectiveIndex(source, opts));
    }
  }
}
