/** Completion suggestions: the source up to the cursor is lexed, the content-assist engine
    (external) lists the token kinds that may come next, and each kind is expanded into
    suggestion records, which are then filtered, stamped, de-duplicated and sorted. */
module Suggestions {
  import opened Wrappers
  import opened Tokens
  import opened Metadata
  import opened Grammar
  import opened Ordering

  /** The `type` of a suggestion. */
  datatype SuggestionType = Aggregations | Fields | Metrics | Operators | Other

  function TypeName(t: SuggestionType): string {
    match t
    case Aggregations => "aggregations"
    case Fields => "fields"
    case Metrics => "metrics"
    case Operators => "operators"
    case Other => "other"
  }

  /** The trim patterns (regular expressions, kept opaque) that tell the editor how much text
      around the cursor a suggestion replaces. */
  datatype Trim =
    | TrailingSpace    // any whitespace before the cursor
    | LeadingOperator  // whitespace, at most one arithmetic operator, whitespace
    | LeadingLParen    // whitespace, at most one `(`, whitespace
    | LeadingRParen    // whitespace, at most one `)`, whitespace
    | TrailingWord     // the word characters before the cursor
    | LeadingWord      // the word characters after the cursor, then whitespace
    | LeadingCall      // the word characters after the cursor, then `(`, `()` or the end

  /** A suggestion record; `prefixLength` and `index` are absent until stamped. */
  datatype Suggestion = Suggestion(
    kind: SuggestionType,
    name: string,
    text: string,
    postfixText: Option<string>,
    prefixTrim: Trim,
    postfixTrim: Trim,
    prefixLength: Option<int>,
    index: Option<int>)

  function TextOf(s: Suggestion): string { s.text }
  function NameOf(s: Suggestion): string { s.name }
  function TypeOf(s: Suggestion): string { TypeName(s.kind) }

  /** One content-assist result: a token kind that may come next, and the rule stack it was
      found under. */
  datatype Assist = Assist(nextTokenType: TokenKind, ruleStack: seq<string>)

  /** The options of a `suggest` call; an absent `index` means the end of the source. */
  datatype SuggestOptions = SuggestOptions(
    table: Table,
    customFields: seq<CustomField>,
    startRule: StartRule,
    index: Option<int>)

  /** What `suggest` uses but does not define: the lexer, the content-assist engine, the
      pattern sources of the concrete operator tokens of each operator kind, the aggregation
      table and the formatting helpers. */
  datatype Services = Services(
    lex: string -> LexResult,
    contentAssist: (StartRule, seq<Token>) -> seq<Assist>,
    subTokenSources: TokenKind -> seq<string>,
    validAggregations: seq<(string, string)>,
    fmt: Formatters)

  datatype SuggestResult = LexingError(message: string) | Suggested(suggestions: seq<Suggestion>)

  const LexingErrorMessage := "sad sad panda, lexing errors detected"

  /** The end position `slice(0, index)` uses: a negative index counts from the end, and the
      position is clamped to the string. */
  function SliceEnd(length: nat, index: int): (r: nat)
    ensures r <= length
    ensures 0 <= index <= length ==> r == index
    ensures index > length ==> r == length
    ensures index < 0 ==> r == if length + index < 0 then 0 else length + index
  {
    if index < 0 then (if length + index < 0 then 0 else length + index)
    else if index > length then length
    else index
  }

  /** `getTokenSource`: a pattern source without its leading escape, if it has one. */
  function TokenSource(pattern: string): (r: string)
    ensures |pattern| > 0 && pattern[0] == '\\' ==> pattern == "\\" + r
    ensures !(|pattern| > 0 && pattern[0] == '\\') ==> r == pattern
  {
    if |pattern| > 0 && pattern[0] == '\\' then pattern[1..] else pattern
  }

  /** A character `\w` matches. */
  predicate IsWordChar(c: char) {
    ('a' <= c <= 'z') || ('A' <= c <= 'Z') || ('0' <= c <= '9') || c == '_'
  }

  /** `/\w/.test` of the last character. Of an empty string the last character is `undefined`,
      tested as the text "undefined", which has word characters. */
  predicate EndsInWordChar(s: string) {
    |s| == 0 || IsWordChar(s[|s| - 1])
  }

  function LowerChar(c: char): char {
    if 'A' <= c <= 'Z' then (c as int + 32) as char else c
  }

  /** `toLowerCase` on ASCII letters. */
  function Lower(s: string): (r: string)
    ensures |r| == |s| && forall i :: 0 <= i < |s| ==> r[i] == LowerChar(s[i])
  {
    seq(|s|, i requires 0 <= i < |s| => LowerChar(s[i]))
  }

  predicate StartsWith(s: string, prefix: string) {
    |prefix| <= |s| && s[..|prefix|] == prefix
  }

  /** The aggregation context recomputed from the rule stack: an `aggregation` start rule and
      no `aggregationExpression` on the stack below its top entry. */
  function OutsideAggregation(startRule: StartRule, ruleStack: seq<string>): (r: bool)
    ensures r <==> startRule == AggregationRule
                   && forall i :: 0 <= i < |ruleStack| - 1 ==> ruleStack[i] != "aggregationExpression"
  {
    var below := if |ruleStack| == 0 then [] else ruleStack[..|ruleStack| - 1];
    assert forall i :: 0 <= i < |below| ==> below[i] == ruleStack[i];
    startRule == AggregationRule && "aggregationExpression" !in below
  }

  /** The last aggregation keyword among the tokens. */
  function LastAggregation(ts: seq<Token>): (r: Option<Token>)
    ensures r.None? <==> forall i :: 0 <= i < |ts| ==> ts[i].kind != Aggregation
    ensures r.Some? ==> exists i :: 0 <= i < |ts| && ts[i] == r.value && r.value.kind == Aggregation
                                  && forall j :: i < j < |ts| ==> ts[j].kind != Aggregation
  {
    var i := LastAggregationBefore(ts, |ts|);
    if i < 0 then None else Some(ts[i])
  }

  /** The position of the last aggregation keyword before `end`, or -1. */
  function LastAggregationBefore(ts: seq<Token>, end: nat): (r: int)
    requires end <= |ts|
    ensures -1 <= r < end
    ensures r >= 0 ==> ts[r].kind == Aggregation
    ensures forall j :: r < j < end ==> ts[j].kind != Aggregation
    decreases end
  {
    if end == 0 then -1
    else if ts[end - 1].kind == Aggregation then end - 1
    else LastAggregationBefore(ts, end - 1)
  }

  /** What one request expands suggestions against. */
  datatype Context = Context(
    startRule: StartRule,
    table: Table,
    customFields: seq<CustomField>,
    services: Services,
    currentAggregation: Option<Token>)

  function OperatorSuggestion(pattern: string): Suggestion {
    var source := TokenSource(pattern);
    Suggestion(Operators, source, " " + source + " ", None, TrailingSpace, LeadingOperator, None, None)
  }

  /** One operator suggestion per concrete operator token, in order. */
  function OperatorSuggestions(patterns: seq<string>): (r: seq<Suggestion>)
    ensures |r| == |patterns|
    ensures forall i :: 0 <= i < |patterns| ==>
              r[i].kind == Operators && r[i].name == TokenSource(patterns[i])
              && r[i].text == " " + TokenSource(patterns[i]) + " "
  {
    seq(|patterns|, i requires 0 <= i < |patterns| => OperatorSuggestion(patterns[i]))
  }

  const OpenParenSuggestion := Suggestion(Other, "(", " (", Some(")"), TrailingSpace, LeadingLParen, None, None)

  const CloseParenSuggestion := Suggestion(Other, ")", ") ", None, TrailingSpace, LeadingRParen, None, None)

  /** The fields offered in a field position: those of the first argument of the last
      aggregation typed so far under the `aggregation` rule, the table's fields under the
      `expression` rule. */
  function CandidateFields(ctx: Context): seq<Field> {
    if ctx.startRule == AggregationRule && ctx.currentAggregation.Some? then
      match ShortCode(ctx.services.validAggregations, ctx.currentAggregation.value.image)
      case None => []
      case Some(short) =>
        match FindFirst(ctx.table.aggregationOptions, (o: AggregationOption) => o.short == short)
        case None => []
        case Some(option) => if |option.fields| > 0 then option.fields[0] else []
    else if ctx.startRule == ExpressionRule then ctx.table.fields
    else []
  }

  function FieldSuggestions(fmt: Formatters, fields: seq<Field>): (r: seq<Suggestion>)
    ensures |r| == |fields|
    ensures forall i :: 0 <= i < |fields| ==>
              r[i].kind == Fields && r[i].name == fields[i].displayName && r[i].text == fmt.fieldName(fields[i]) + " "
  {
    seq(|fields|, i requires 0 <= i < |fields| =>
      Suggestion(Fields, fields[i].displayName, fmt.fieldName(fields[i]) + " ", None, TrailingWord, LeadingWord, None, None))
  }

  function ExpressionSuggestions(fmt: Formatters, customFields: seq<CustomField>): (r: seq<Suggestion>)
    ensures |r| == |customFields|
    ensures forall i :: 0 <= i < |customFields| ==>
              r[i].kind == Fields && r[i].name == customFields[i].name
              && r[i].text == fmt.expressionName(customFields[i].name) + " "
  {
    seq(|customFields|, i requires 0 <= i < |customFields| =>
      var name := customFields[i].name;
      Suggestion(Fields, name, fmt.expressionName(name) + " ", None, TrailingWord, LeadingWord, None, None))
  }

  /** The suggestion for one aggregation option. */
  function AggregationSuggestion(fmt: Formatters, o: AggregationOption): Suggestion {
    var name := fmt.aggregationName(o);
    var arity := |o.fields|;
    Suggestion(Aggregations, name, name + "(" + (if arity > 0 then "" else ")"), Some(if arity > 0 then ")" else ""),
               TrailingWord, LeadingCall, None, None)
  }

  /** The aggregation suggestions: one per option with a non-empty formatted name, in order. */
  function AggregationSuggestions(fmt: Formatters, options: seq<AggregationOption>): (r: seq<Suggestion>)
    ensures forall s :: s in r ==> exists o :: o in options && fmt.aggregationName(o) != "" && s == AggregationSuggestion(fmt, o)
    ensures forall o :: o in options && fmt.aggregationName(o) != "" ==> AggregationSuggestion(fmt, o) in r
    decreases |options|
  {
    if |options| == 0 then []
    else
      var rest := AggregationSuggestions(fmt, options[1..]);
      assert forall p :: p in options ==> p == options[0] || p in options[1..];
      if fmt.aggregationName(options[0]) == "" then rest
      else [AggregationSuggestion(fmt, options[0])] + rest
  }

  /** A zero-arity aggregation closes its parenthesis at once and has an empty postfix; any other
      leaves it open and has `)` as postfix. */
  lemma AggregationSuggestionShape(fmt: Formatters, o: AggregationOption)
    ensures var s := AggregationSuggestion(fmt, o);
            s.kind == Aggregations && s.name == fmt.aggregationName(o)
            && (|o.fields| == 0 ==> s.text == s.name + "()" && s.postfixText == Some(""))
            && (|o.fields| > 0 ==> s.text == s.name + "(" && s.postfixText == Some(")"))
  {
  }

  function MetricSuggestions(fmt: Formatters, metrics: seq<Metric>): (r: seq<Suggestion>)
    ensures |r| == |metrics|
    ensures forall i :: 0 <= i < |metrics| ==>
              r[i].kind == Metrics && r[i].name == metrics[i].name && r[i].text == fmt.metricName(metrics[i]) + "()"
  {
    seq(|metrics|, i requires 0 <= i < |metrics| =>
      Suggestion(Metrics, metrics[i].name, fmt.metricName(metrics[i]) + "()", None, TrailingWord, LeadingCall, None, None))
  }

  /** The suggestions for one content-assist result. Fields and custom expressions only where
      the position is not outside an aggregation; aggregations and metrics only where it is;
      nothing for numbers, nor for a kind the expansion does not handle. */
  function Expand(ctx: Context, a: Assist): seq<Suggestion> {
    var outside := OutsideAggregation(ctx.startRule, a.ruleStack);
    var fmt := ctx.services.fmt;
    match a.nextTokenType
    case MultiplicativeOperator => OperatorSuggestions(ctx.services.subTokenSources(MultiplicativeOperator))
    case AdditiveOperator => OperatorSuggestions(ctx.services.subTokenSources(AdditiveOperator))
    case LParen => [OpenParenSuggestion]
    case RParen => [CloseParenSuggestion]
    case Identifier =>
      if outside then [] else FieldSuggestions(fmt, CandidateFields(ctx)) + ExpressionSuggestions(fmt, ctx.customFields)
    case StringLiteral =>
      if outside then [] else FieldSuggestions(fmt, CandidateFields(ctx)) + ExpressionSuggestions(fmt, ctx.customFields)
    case Aggregation =>
      if outside then AggregationSuggestions(fmt, ctx.table.aggregationOptions) + MetricSuggestions(fmt, ctx.table.metrics)
      else []
    case NumberLiteral => []
    case Comma => []
  }

  /** The suggestions of all content-assist results, in order. */
  function ExpandAll(ctx: Context, assists: seq<Assist>): seq<Suggestion>
    decreases |assists|
  {
    if |assists| == 0 then []
    else ExpandAll(ctx, assists[..|assists| - 1]) + Expand(ctx, assists[|assists| - 1])
  }

  /** The partial-identifier filter: the text or the name, when not empty, starts with the
      lower-cased partial identifier. */
  predicate MatchesPartial(s: Suggestion, partial: string) {
    (s.text != "" && StartsWith(Lower(s.text), partial)) || (s.name != "" && StartsWith(Lower(s.name), partial))
  }

  function KeepMatching(xs: seq<Suggestion>, partial: string): (r: seq<Suggestion>)
    ensures forall s :: s in r ==> s in xs && MatchesPartial(s, partial)
    ensures forall s :: s in xs && MatchesPartial(s, partial) ==> s in r
    decreases |xs|
  {
    if |xs| == 0 then []
    else
      var n := |xs| - 1;
      var kept := KeepMatching(xs[..n], partial);
      assert forall s :: s in xs[..n] ==> s in xs;
      assert forall s :: s in xs ==> s in xs[..n] || s == xs[n];
      if MatchesPartial(xs[n], partial) then kept + [xs[n]] else kept
  }

  function WithPrefixLength(xs: seq<Suggestion>, length: int): (r: seq<Suggestion>)
    ensures |r| == |xs| && forall i :: 0 <= i < |xs| ==> r[i] == xs[i].(prefixLength := Some(length))
  {
    seq(|xs|, i requires 0 <= i < |xs| => xs[i].(prefixLength := Some(length)))
  }

  /** The final stamp: the request's index, and the text as name when the name is empty. */
  function Stamp(s: Suggestion, index: int): Suggestion {
    s.(index := Some(index), name := if s.name == "" then s.text else s.name)
  }

  function StampAll(xs: seq<Suggestion>, index: int): (r: seq<Suggestion>)
    ensures |r| == |xs| && forall i :: 0 <= i < |xs| ==> r[i] == Stamp(xs[i], index)
  {
    seq(|xs|, i requires 0 <= i < |xs| => Stamp(xs[i], index))
  }

  /** De-duplicate by text, then `sortBy(name)`, then `sortBy(type)`. */
  function Finish(xs: seq<Suggestion>): seq<Suggestion> {
    SortBy(SortBy(UniqBy(xs, TextOf), NameOf), TypeOf)
  }

  function EffectiveIndex(source: string, opts: SuggestOptions): int {
    if opts.index.Some? then opts.index.value else |source|
  }

  function PartialSource(source: string, opts: SuggestOptions): string {
    source[..SliceEnd(|source|, EffectiveIndex(source, opts))]
  }

  /** The cursor is inside an identifier: the last token is one and the source before the
      cursor ends in a word character. */
  predicate InPartialMode(tokens: seq<Token>, partialSource: string) {
    |tokens| > 0 && tokens[|tokens| - 1].kind == Identifier && EndsInWordChar(partialSource)
  }

  /** The tokens content assist is asked about: all of them, or all but the partial identifier. */
  function AssistanceTokens(tokens: seq<Token>, partialSource: string): seq<Token> {
    if InPartialMode(tokens, partialSource) then tokens[..|tokens| - 1] else tokens
  }

  /** The lower-cased partial identifier. */
  function Partial(tokens: seq<Token>): string
    requires |tokens| > 0
  {
    Lower(tokens[|tokens| - 1].image)
  }

  function ContextFor(opts: SuggestOptions, services: Services, assistance: seq<Token>): Context {
    Context(opts.startRule, opts.table, opts.customFields, services, LastAggregation(assistance))
  }

  /** The suggestions before filtering. */
  function Candidates(opts: SuggestOptions, services: Services, assistance: seq<Token>): seq<Suggestion> {
    ExpandAll(ContextFor(opts, services, assistance), services.contentAssist(opts.startRule, assistance))
  }

  /** In partial mode, the candidates matching the partial identifier, with its length recorded;
      otherwise all of them. */
  function Filtered(candidates: seq<Suggestion>, tokens: seq<Token>, partialSource: string): seq<Suggestion> {
    if InPartialMode(tokens, partialSource) then
      WithPrefixLength(KeepMatching(candidates, Partial(tokens)), |Partial(tokens)|)
    else candidates
  }

  /** `suggest`, as a function of its inputs. */
  function SuggestSpec(source: string, opts: SuggestOptions, services: Services): SuggestResult {
    var partialSource := PartialSource(source, opts);
    var lexResult := services.lex(partialSource);
    if lexResult.errors > 0 then LexingError(LexingErrorMessage)
    else
      var tokens := lexResult.tokens;
      var candidates := Candidates(opts, services, AssistanceTokens(tokens, partialSource));
      Suggested(Finish(StampAll(Filtered(candidates, tokens, partialSource), EffectiveIndex(source, opts))))
  }

  /** The loop that pushes the expansion of every content-assist result. */
  method CollectSuggestions(ctx: Context, syntacticSuggestions: seq<Assist>) returns (finalSuggestions: seq<Suggestion>)
    ensures finalSuggestions == ExpandAll(ctx, syntacticSuggestions)
  {
    finalSuggestions := [];
    var i := 0;
    while i < |syntacticSuggestions|
      invariant 0 <= i <= |syntacticSuggestions|
      invariant finalSuggestions == ExpandAll(ctx, syntacticSuggestions[..i])
    {
      finalSuggestions := finalSuggestions + Expand(ctx, syntacticSuggestions[i]);
      assert syntacticSuggestions[..i + 1][..i] == syntacticSuggestions[..i];
      i := i + 1;
    }
    assert syntacticSuggestions[..i] == syntacticSuggestions;
  }

  /** The partial-identifier filter loop. */
  method FilterPartial(suggestions: seq<Suggestion>, partial: string) returns (kept: seq<Suggestion>)
    ensures kept == KeepMatching(suggestions, partial)
  {
    kept := [];
    var j := 0;
    while j < |suggestions|
      invariant 0 <= j <= |suggestions|
      invariant kept == KeepMatching(suggestions[..j], partial)
    {
      if MatchesPartial(suggestions[j], partial) {
        kept := kept + [suggestions[j]];
      }
      assert suggestions[..j + 1][..j] == suggestions[..j];
      j := j + 1;
    }
    assert suggestions[..j] == suggestions;
  }

  /** The loop that records the partial identifier's length on every suggestion. */
  method StampPrefixLength(suggestions: seq<Suggestion>, prefixLength: int) returns (r: seq<Suggestion>)
    ensures r == WithPrefixLength(suggestions, prefixLength)
  {
    r := suggestions;
    var k := 0;
    while k < |r|
      invariant 0 <= k <= |r| && |r| == |suggestions|
      invariant forall m :: 0 <= m < k ==> r[m] == suggestions[m].(prefixLength := Some(prefixLength))
      invariant forall m :: k <= m < |suggestions| ==> r[m] == suggestions[m]
    {
      r := r[k := r[k].(prefixLength := Some(prefixLength))];
      k := k + 1;
    }
  }

  /** The loop that records the index on every suggestion and names the unnamed ones by their text. */
  method StampIndex(suggestions: seq<Suggestion>, index: int) returns (r: seq<Suggestion>)
    ensures r == StampAll(suggestions, index)
  {
    r := suggestions;
    var m := 0;
    while m < |r|
      invariant 0 <= m <= |r| && |r| == |suggestions|
      invariant forall p :: 0 <= p < m ==> r[p] == Stamp(suggestions[p], index)
      invariant forall p :: m <= p < |suggestions| ==> r[p] == suggestions[p]
    {
      var suggestion := r[m].(index := Some(index));
      if suggestion.name == "" {
        suggestion := suggestion.(name := suggestion.text);
      }
      r := r[m := suggestion];
      m := m + 1;
    }
  }

  /** `suggest`: lexes the source before the cursor, detects a partial identifier, collects the
      expansions of every content-assist result, filters and stamps them, and returns them
      de-duplicated and sorted. */
  method Suggest(source: string, opts: SuggestOptions, services: Services) returns (r: SuggestResult)
    ensures r == SuggestSpec(source, opts, services)
  {
    var index := if opts.index.Some? then opts.index.value else |source|;
    var partialSource := source[..SliceEnd(|source|, index)];
    assert index == EffectiveIndex(source, opts) && partialSource == PartialSource(source, opts);
    var lexResult := services.lex(partialSource);
    if lexResult.errors > 0 {
      return LexingError(LexingErrorMessage);
    }
    var tokens := lexResult.tokens;
    var partialSuggestionMode := false;
    var assistanceTokenVector := tokens;
    if |tokens| > 0 && tokens[|tokens| - 1].kind == Identifier && EndsInWordChar(partialSource) {
      assistanceTokenVector := assistanceTokenVector[..|assistanceTokenVector| - 1];
      partialSuggestionMode := true;
    }
    assert partialSuggestionMode == InPartialMode(tokens, partialSource);
    assert assistanceTokenVector == AssistanceTokens(tokens, partialSource);
    var ctx := Context(opts.startRule, opts.table, opts.customFields, services, LastAggregation(assistanceTokenVector));
    var syntacticSuggestions := services.contentAssist(opts.startRule, assistanceTokenVector);
    var finalSuggestions := CollectSuggestions(ctx, syntacticSuggestions);
    ghost var candidates := finalSuggestions;
    assert candidates == Candidates(opts, services, assistanceTokenVector);
    if partialSuggestionMode {
      var partial := Lower(tokens[|tokens| - 1].image);
      finalSuggestions := FilterPartial(finalSuggestions, partial);
      finalSuggestions := StampPrefixLength(finalSuggestions, |partial|);
    }
    assert finalSuggestions == Filtered(candidates, tokens, partialSource);
    finalSuggestions := StampIndex(finalSuggestions, index);
    r := Suggested(Finish(finalSuggestions));
  }
}
