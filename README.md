# Metabase custom-expression parser, modelled in Dafny

This project models the parser behind Metabase's custom-expression editor,
`frontend/src/metabase/lib/expressions/parser.js`. It covers three things.

- **The grammar.** Custom columns use the `expression` rule and custom
  aggregations the `aggregation` rule. Both go through the same chain:
  additive terms, then multiplicative terms, then atoms. An atom is
  - an aggregation call,
  - a metric call,
  - a field or custom-expression name,
  - a parenthesised expression, or
  - a number.

  A boolean "outside aggregation" flag is passed down every rule. It decides
  which of those atoms are allowed.
- **The two backends.**
  - The MBQL compiler (`compile`) builds nested MBQL arrays and throws on an
    unknown name.
  - The syntax parser (`parse`) builds `{type, children}` trees that keep
    their tokens. It represents an unknown name as an `unknown` node.
- **`run`, `getTokenSource` and `suggest`.** `suggest` turns the
  content-assist results for the text before the cursor into editor
  suggestions.

## Module layout

| Module | What it holds |
|---|---|
| `Tokens` | Tokens, their spans, and suffix facts about token sequences. |
| `Metadata` | Table metadata and the name lookups. |
| `Grammar` | One grammar over a token sequence, parameterised by a `Backend`. A `Backend` is a record of the callbacks that the two parser subclasses override. |
| `Mbql`, `Compiler` | The MBQL backend. `_math` is a loop, `Mbql.MathInPlace`, proved equal to the fold `Mbql.Math`. |
| `SyntaxTree` | The syntax backend. The `_aggregation` index loop is `SyntaxTree.InterleaveArgs`. |
| `GrammarProofs` | Properties of the grammar shared by every backend. |
| `SyntaxGating` | What the flag admits, proved on the trees it builds. |
| `SyntaxLeaves` | The leaves of a syntax tree are the tokens it consumed. |
| `ExpressionReferences` | The expression-reference finding below. |
| `BackendAgreement` | How `compile` and `parse` relate. |
| `Examples` | Worked derivations. |
| `Ordering` | Stable sort and de-duplication. |
| `Suggestions`, `SuggestProofs` | `suggest`: a method with the source's loops, proved equal to `Suggestions.SuggestSpec`, and the properties of that function. |

The model makes these choices:

- **Recognition errors.** The parser stops at the first recognition error.
  `run` then throws a list holding that one error. A parse that succeeds
  but leaves tokens over reports a "not all input parsed" error.
- **Callback errors.** An error thrown by a callback keeps its own message
  and is reported as `Raised`. The MBQL backend's `Unknown field` and
  `Unknown metric` errors are of this kind.
- **Inputs taken as parameters.** These are function values or plain data:
  - the lexer;
  - content assist;
  - the aggregation keyword table;
  - the pattern sources of the concrete operator tokens;
  - `JSON.parse` on string literals;
  - the four name formatters.

**Lexing errors in `run`.** `run` (parser.js lines 281-292) reads only
`.tokens` from the lexer result (line 286) and never looks at its errors, while
`suggest` throws when there are any (lines 311-314). The model follows the code, so `Grammar.Run`
ignores lexing errors. `suggest` does check them: it throws when there are
any. That behaviour is `Suggestions.SuggestSpec`, proved in
`SuggestProofs.LexingErrorIff`.

## Model

| member | source | states |
|---|---|---|
| Grammar.Expression | frontend/src/metabase/lib/expressions/parser.js:30-32 | The `expression` rule consumes at least one token when it succeeds, which is what makes the recursion through `(` and aggregation calls terminate. |
| Grammar.Additive | frontend/src/metabase/lib/expressions/parser.js:42-50 | A multiplicative term and then any number of (additive operator, term) pairs. On success a non-empty prefix is consumed. |
| Grammar.AdditiveOperations | frontend/src/metabase/lib/expressions/parser.js:44-48 | The `MANY` loop of the additive rule. It returns the (operator, value) pairs and leaves a suffix of its input. |
| Grammar.Multiplicative | frontend/src/metabase/lib/expressions/parser.js:52-60 | An atomic term and then any number of (multiplicative operator, term) pairs. On success a non-empty prefix is consumed. |
| Grammar.MultiplicativeOperations | frontend/src/metabase/lib/expressions/parser.js:54-58 | The `MANY` loop of the multiplicative rule. It leaves a suffix of its input. |
| Grammar.Atomic | frontend/src/metabase/lib/expressions/parser.js:122-131 | The gated choice of an atom, with a metric call chosen only when `(` follows the name. On success it consumes at least one token. |
| Grammar.AggregationOrMetric | frontend/src/metabase/lib/expressions/parser.js:62-67 | An aggregation call or a metric call. On success it consumes at least one token. |
| Grammar.AggregationExpression | frontend/src/metabase/lib/expressions/parser.js:69-76 | A keyword, `(`, comma-separated arguments parsed with the flag cleared, then `)`. On success it consumes at least one token. |
| Grammar.MetricExpression | frontend/src/metabase/lib/expressions/parser.js:78-88 | A metric call: name, `(`, `)`. On success it consumes at least one token. |
| Grammar.FieldExpression | frontend/src/metabase/lib/expressions/parser.js:90-105 | A string or identifier in field position. On success it consumes at least one token. |
| Grammar.Parenthesis | frontend/src/metabase/lib/expressions/parser.js:133-138 | `(`, an expression with the same flag, `)`. On success it consumes at least one token. |
| Grammar.Arguments | frontend/src/metabase/lib/expressions/parser.js:72 | `MANY_SEP`: no values and no separators, or exactly one separator fewer than values. |
| Grammar.MoreArguments | frontend/src/metabase/lib/expressions/parser.js:72 | The (comma, value) repetition of `MANY_SEP`. It has as many separators as values. |
| Grammar.EntryParse | frontend/src/metabase/lib/expressions/parser.js:30-37 | `expression` parses with the flag cleared and `aggregation` with it set. On success a non-empty prefix is consumed. |
| Grammar.Invoke | frontend/src/metabase/lib/expressions/parser.js:286-291 | A value exactly when the start rule parses all tokens. A thrown callback error exactly when a callback threw. Otherwise a list of exactly one recognition error. |
| Grammar.Run | frontend/src/metabase/lib/expressions/parser.js:281-292 | An empty source gives `[]` exactly, without parsing. A value comes only from a full parse of the lexed tokens. A failed parse never gives a value. |
| Mbql.MathStep | frontend/src/metabase/lib/expressions/parser.js:161-167 | After one step the accumulator is headed by that step's operator. |
| Mbql.Math | frontend/src/metabase/lib/expressions/parser.js:160-170 | No operations leaves the initial value unchanged. Otherwise the result is headed by the last operator. |
| Mbql.MathInPlace | frontend/src/metabase/lib/expressions/parser.js:160-170 | The in-place `push` loop computes the fold `Math`. |
| Mbql.MathCollapsesChain | frontend/src/metabase/lib/expressions/parser.js:160-170 | A run of n equal operators after a head that differs gives one node `[op, initial, operand1 … operandn]`. |
| Mbql.MathAlternatingIsBinary | frontend/src/metabase/lib/expressions/parser.js:160-170 | When neighbouring operators differ, and the first differs from the initial head, every step wraps as `[op, acc, rhs]`. |
| Mbql.MathAppend | frontend/src/metabase/lib/expressions/parser.js:160-170 | Folding `xs + ys` is folding `ys` over the fold of `xs`. |
| Mbql.Operands | frontend/src/metabase/lib/expressions/parser.js:161 | The right-hand values of the operations, in order. A reference definition: the collapse it serves is proved in `Mbql.MathCollapsesChain`. |
| Metadata.FieldForName | frontend/src/metabase/lib/expressions/parser.js:143-146 | A field whose display name is the name, or none exactly when no field has it or there is no table. |
| Metadata.MetricForName | frontend/src/metabase/lib/expressions/parser.js:153-156 | A metric whose formatted name is the name, or none exactly when there is none. |
| Metadata.ExpressionForName | frontend/src/metabase/lib/expressions/parser.js:148-151 | The custom expression of that name, or none exactly when there is none. |
| Metadata.ResolveFieldName | frontend/src/metabase/lib/expressions/parser.js:96-104 | A field if one matches. Otherwise a custom expression if one matches. Otherwise unknown. Each outcome holds exactly in its own case. |
| Metadata.ShortCode | frontend/src/metabase/lib/expressions/parser.js:19 | The reversed `VALID_AGGREGATIONS` map. It is none exactly when no pair has that display name, and otherwise gives a pair's short code for that name. |
| Metadata.LastWithName | frontend/src/metabase/lib/expressions/parser.js:19 | The last pair with the display name before `end`, which is the entry a later `Map` key keeps. |
| SyntaxTree.OperationChildren | frontend/src/metabase/lib/expressions/parser.js:221 | Operator token and operand, alternately: 2·n children. |
| SyntaxTree.MathTree | frontend/src/metabase/lib/expressions/parser.js:220-222 | A `math` node with 1 + 2·n children: the initial value, then wrapped operator tokens alternating with operands. |
| SyntaxTree.InterleaveArgs | frontend/src/metabase/lib/expressions/parser.js:224-230 | The index loop builds the interleaving of values and separators. |
| SyntaxTree.InterleaveFull | frontend/src/metabase/lib/expressions/parser.js:224-230 | When there are at least as many separators as values, each value is followed by its separator. |
| SyntaxTree.InterleaveLayout | frontend/src/metabase/lib/expressions/parser.js:224-230 | For a `MANY_SEP` result, values sit at even and raw separators at odd positions. The length is the sum of the two counts. |
| GrammarProofs.FormulaHasNoAggregation | frontend/src/metabase/lib/expressions/parser.js:30-32 | A source accepted by the `expression` rule contains no aggregation keyword, whatever the backend. |
| GrammarProofs.InvokeAgrees | frontend/src/metabase/lib/expressions/parser.js:286-291 | Any two backends over the same tokens both give a value, or both give the same error list, unless a callback of one of them threw. |
| GrammarProofs.ExpressionAgrees | frontend/src/metabase/lib/expressions/parser.js:30-138 | Recognition does not depend on the backend: the same success, the same remaining tokens, the same errors. |
| SyntaxGating.ParseTreeIsGated | frontend/src/metabase/lib/expressions/parser.js:122-131 | `parse` never throws. Every tree obeys the gates for its start rule's flag. |
| SyntaxGating.ClearFlagExcludesAggregations | frontend/src/metabase/lib/expressions/parser.js:125 | With the flag cleared, no aggregation or metric node occurs. |
| SyntaxGating.SetFlagExcludesBareFields | frontend/src/metabase/lib/expressions/parser.js:127 | With the flag set, no field or expression-reference node occurs outside an aggregation's arguments. An `unknown` node is not distinguished by origin, so an unresolved field name is not covered; the grammar does not build one there. |
| SyntaxGating.AggregationArgumentsAreFlat | frontend/src/metabase/lib/expressions/parser.js:72 | The arguments of an aggregation contain no aggregation or metric: aggregations do not nest. |
| SyntaxGating.MathTreeGated | frontend/src/metabase/lib/expressions/parser.js:220-222 | A `math` node over gated parts is gated. |
| SyntaxGating.AggregationTreeGated | frontend/src/metabase/lib/expressions/parser.js:223-232 | An `aggregation` node over arguments gated with a cleared flag is gated under a set flag. |
| SyntaxLeaves.EntryLeaves | frontend/src/metabase/lib/expressions/parser.js:208-260 | Whatever the start rule, a complete lossless parse has exactly the spans of the input tokens as its leaves. An aggregation's separating commas count among them, though they are raw lexer tokens, not `token()` wrappers. |
| SyntaxLeaves.ParseTreeLeaves | frontend/src/metabase/lib/expressions/parser.js:208-260 | A tree with no metric call, no unknown metric and no expression reference has the lexed tokens as its leaves (text and offsets), in order. An aggregation's separating commas count among them, though they are raw lexer tokens, not `token()` wrappers. |
| SyntaxLeaves.MathTreeLeaves | frontend/src/metabase/lib/expressions/parser.js:220-222 | The leaves of a `math` node are those of the initial value followed by each operator and operand. |
| SyntaxLeaves.AggregationTreeLeaves | frontend/src/metabase/lib/expressions/parser.js:223-232 | The leaves of an `aggregation` node are the keyword, `(`, the arguments with their commas, and `)`. |
| SyntaxLeaves.InterleaveLeaves | frontend/src/metabase/lib/expressions/parser.js:224-230 | Interleaving keeps the leaves of the values and of the separators, in order. |
| BackendAgreement.CompiledSourceParses | frontend/src/metabase/lib/expressions/parser.js:294-300 | A source that compiles also parses. |
| BackendAgreement.ParsedSourceCompilesOrRaises | frontend/src/metabase/lib/expressions/parser.js:294-300 | A source that parses either compiles or makes the compiler throw on a name. |
| BackendAgreement.SameSyntaxErrors | frontend/src/metabase/lib/expressions/parser.js:294-300 | `compile` and `parse` report the same recognition errors, unless the compiler threw first. |
| Examples.SameOperatorChainIsFlat | frontend/src/metabase/lib/expressions/parser.js:160-170 | `1 + 2 + 3` compiles to `["+", 1, 2, 3]`. |
| Examples.OneAddition | frontend/src/metabase/lib/expressions/parser.js:44-48 | `+ c` yields one operator/operand pair and consumes everything. |
| Examples.TwoAdditions | frontend/src/metabase/lib/expressions/parser.js:44-48 | `+ b + c` yields the two pairs and consumes everything. |
| Examples.TwoSameOperations | frontend/src/metabase/lib/expressions/parser.js:160-170 | Two equal operators after a different head give one node with three operands. |
| Examples.SumOfField | frontend/src/metabase/lib/expressions/parser.js:171-174 | `Sum(field)` compiles to `[short, ["field-id", id]]` under the `aggregation` rule. |
| Examples.SumCall | frontend/src/metabase/lib/expressions/parser.js:69-76 | The aggregation rule on `Sum(field)` consumes all four tokens. |
| Examples.FieldArgument | frontend/src/metabase/lib/expressions/parser.js:72 | One field argument followed by `)`: one value, no separator, `)` left over. |
| Examples.BareNameInAggregationIsRejected | frontend/src/metabase/lib/expressions/parser.js:122-131 | Under the `aggregation` rule, a name not followed by `(` is a no-viable-alternative error at the name, for any backend. |
| Examples.SumInFormulaIsRejected | frontend/src/metabase/lib/expressions/parser.js:125 | An aggregation call under the `expression` rule is a no-viable-alternative error at the keyword. |
| Examples.UnknownFieldThrows | frontend/src/metabase/lib/expressions/parser.js:184-186 | The compiler throws `Unknown field "<name>"` for an unresolved name. |
| Examples.UnknownFieldIsANode | frontend/src/metabase/lib/expressions/parser.js:242-244 | The syntax parser gives an `unknown` node for the same name, wrapped in the two `math` levels. |
| Examples.ParenthesesAreTransparent | frontend/src/metabase/lib/expressions/parser.js:200-202 | A compiled group's value is the inner expression's value. |
| Examples.CompiledFieldName | frontend/src/metabase/lib/expressions/parser.js:178-186 | A name compiles to `["field-id", id]`, to `["expression", name]`, or throws `Unknown field`, following the resolution order. |
| Examples.ParsedFieldName | frontend/src/metabase/lib/expressions/parser.js:236-244 | The syntax parser gives a `field` node, an `expression-reference` node or an `unknown` node for the same three cases. |
| Examples.CompiledMetricCall | frontend/src/metabase/lib/expressions/parser.js:175-189 | A metric call compiles to `["METRIC", id]`, or throws `Unknown metric "<name>"`. |
| Examples.AdditiveStep | frontend/src/metabase/lib/expressions/parser.js:44-48 | One turn of the additive loop prepends its pair. |
| Examples.NumberTerm | frontend/src/metabase/lib/expressions/parser.js:117-120 | A lone number is a term whose value is its literal. |
| Examples.LoneAtom | frontend/src/metabase/lib/expressions/parser.js:42-60 | A lone atom is wrapped by both `_math` levels with no operations. |
| Examples.AggregationCall | frontend/src/metabase/lib/expressions/parser.js:69-76 | An aggregation call hands its keyword, parentheses and arguments to the backend. |
| ExpressionReferences.ReferenceDropsItsName | frontend/src/metabase/lib/expressions/parser.js:239-241 | As written, a formula that is one custom-expression name parses to a tree with no leaves, so the name's token is lost. |
| ExpressionReferences.CorrectedFormulaLeaves | frontend/src/metabase/lib/expressions/parser.js:239-241 | With the reference node keeping its name, every formula tree without metric calls has the lexed tokens as its leaves. |
| ExpressionReferences.CorrectedReferenceKeepsItsName | frontend/src/metabase/lib/expressions/parser.js:239-241 | The corrected tree of the same formula has exactly the name's span as its leaves. |
| ExpressionReferences.ReferenceFormula | frontend/src/metabase/lib/expressions/parser.js:100-103 | A single custom-expression name parses to its reference node inside the two `math` levels. |
| ExpressionReferences.GatedFormulaIsLossless | frontend/src/metabase/lib/expressions/parser.js:122-131 | A tree gated with the flag cleared holds no metric or unknown-metric node. |
| Ordering.SortBySorted | frontend/src/metabase/lib/expressions/parser.js:443-444 | `sortBy` returns its input sorted by the key. |
| Ordering.SortByStable | frontend/src/metabase/lib/expressions/parser.js:443-444 | `sortBy` is stable: the elements of each key keep their order. |
| Ordering.SortTwiceIsLexicographic | frontend/src/metabase/lib/expressions/parser.js:443-444 | Sorting by name and then by type orders by type, then by name within a type. |
| Ordering.SortBy | frontend/src/metabase/lib/expressions/parser.js:443-444 | Sorting is a permutation. |
| Ordering.SortByDistinct | frontend/src/metabase/lib/expressions/parser.js:442-444 | Sorting keeps keys distinct. |
| Ordering.UniqByKeeps | frontend/src/metabase/lib/expressions/parser.js:442 | `uniq` by a key: keys become distinct, every input key survives, and each survivor is the first with its key. |
| Ordering.LessTransitive | frontend/src/metabase/lib/expressions/parser.js:443-444 | String order is transitive. |
| Ordering.LessTotal | frontend/src/metabase/lib/expressions/parser.js:443-444 | String order is total. |
| Suggestions.SliceEnd | frontend/src/metabase/lib/expressions/parser.js:310 | `slice(0, index)`: a negative index counts from the end, and the result is clamped to the string. A reference definition of `slice`'s end position, used by `Suggestions.SuggestSpec`. |
| Suggestions.TokenSource | frontend/src/metabase/lib/expressions/parser.js:276-279 | `getTokenSource` strips one leading backslash and otherwise returns the pattern unchanged. |
| Suggestions.OutsideAggregation | frontend/src/metabase/lib/expressions/parser.js:339 | True exactly when the start rule is `aggregation` and no rule-stack entry but the last is `aggregationExpression`. |
| Suggestions.LastAggregation | frontend/src/metabase/lib/expressions/parser.js:331 | The last aggregation keyword among the assistance tokens, or none exactly when there is none. |
| Suggestions.OperatorSuggestions | frontend/src/metabase/lib/expressions/parser.js:341-349 | One `operators` suggestion per concrete operator, named by its source and with text padded by spaces. A reference definition: what the expansions promise is proved in `SuggestProofs.ExpandProduces`. |
| Suggestions.FieldSuggestions | frontend/src/metabase/lib/expressions/parser.js:377-383 | One `fields` suggestion per field: display name, and formatted name plus a space. A reference definition: what the expansions promise is proved in `SuggestProofs.ExpandProduces`. |
| Suggestions.ExpressionSuggestions | frontend/src/metabase/lib/expressions/parser.js:384-390 | One `fields` suggestion per custom expression, in key order. A reference definition: what the expansions promise is proved in `SuggestProofs.ExpandProduces`. |
| Suggestions.AggregationSuggestions | frontend/src/metabase/lib/expressions/parser.js:394-404 | Exactly the options with a non-empty formatted name, one suggestion each. |
| Suggestions.AggregationSuggestionShape | frontend/src/metabase/lib/expressions/parser.js:395-400 | Zero arity closes the parenthesis at once and has an empty postfix. Any other arity leaves it open and has postfix `)`. |
| Suggestions.MetricSuggestions | frontend/src/metabase/lib/expressions/parser.js:405-411 | One `metrics` suggestion per metric, with text the formatted name plus `()`. A reference definition: what the expansions promise is proved in `SuggestProofs.ExpandProduces`. |
| Suggestions.KeepMatching | frontend/src/metabase/lib/expressions/parser.js:423-426 | Exactly the suggestions whose non-empty text or name, lower-cased, starts with the partial identifier. |
| Suggestions.WithPrefixLength | frontend/src/metabase/lib/expressions/parser.js:428-431 | Every suggestion gets the partial identifier's length, and nothing else changes. A reference definition: its use is proved in `SuggestProofs.SuggestionsMatchPartial`. |
| Suggestions.StampAll | frontend/src/metabase/lib/expressions/parser.js:433-438 | Every suggestion is stamped with the index and named by its text when unnamed. A reference definition: its use is proved in `SuggestProofs.SuggestionsAreStamped`. |
| SuggestProofs.LowerProperties | frontend/src/metabase/lib/expressions/parser.js:422-425 | Lower-casing leaves no upper-case letter, leaves a string without one unchanged, and is idempotent. |
| Suggestions.Lower | frontend/src/metabase/lib/expressions/parser.js:422 | Lower-casing is character by character and keeps the length. A reference definition: its properties are proved in `SuggestProofs.LowerProperties`. |
| Suggestions.CollectSuggestions | frontend/src/metabase/lib/expressions/parser.js:333-418 | The push loop over content-assist results computes the expansion of each result, in order. |
| Suggestions.FilterPartial | frontend/src/metabase/lib/expressions/parser.js:421-427 | The filter keeps exactly the matching suggestions, in order. |
| Suggestions.StampPrefixLength | frontend/src/metabase/lib/expressions/parser.js:428-431 | The loop that sets `prefixLength` computes `WithPrefixLength`. |
| Suggestions.StampIndex | frontend/src/metabase/lib/expressions/parser.js:433-438 | The loop that sets `index` and the default `name` computes `StampAll`. |
| Suggestions.Suggest | frontend/src/metabase/lib/expressions/parser.js:304-446 | The imperative `suggest` computes `SuggestSpec`, whose properties are the `SuggestProofs` rows. |
| SuggestProofs.LexingErrorIff | frontend/src/metabase/lib/expressions/parser.js:310-314 | `suggest` throws exactly when lexing the source before the cursor reports errors, with the source's message. |
| SuggestProofs.SuggestionsAreStamped | frontend/src/metabase/lib/expressions/parser.js:433-438 | Every suggestion carries the requested index (the source length by default) and a non-empty name. |
| SuggestProofs.SuggestionsMatchPartial | frontend/src/metabase/lib/expressions/parser.js:316-431 | In partial mode every suggestion matches the lower-cased partial and has its length as `prefixLength`. Outside partial mode none has a `prefixLength`. |
| SuggestProofs.SuggestionsAreDistinctAndSorted | frontend/src/metabase/lib/expressions/parser.js:440-445 | Texts are unique, the output is sorted by type, and it is sorted by name within each type. |
| SuggestProofs.SuggestionsHaveProvenance | frontend/src/metabase/lib/expressions/parser.js:336-412 | Every suggestion comes from a content-assist result whose token kind, and aggregation context, allow its type. No field is offered outside an aggregation, and no aggregation or metric inside one. |
| SuggestProofs.SuggestionsAreComplete | frontend/src/metabase/lib/expressions/parser.js:333-445 | Every expansion that survives the partial filter has its text among the results. |
| SuggestProofs.ExpandProduces | frontend/src/metabase/lib/expressions/parser.js:341-417 | Each expansion has a type its token kind and context allow, a non-empty text, and no prefix length or index yet. |
| SuggestProofs.ExpandAllMembers | frontend/src/metabase/lib/expressions/parser.js:333-418 | The collected suggestions are exactly those of some content-assist result. |
| SuggestProofs.FinishDistinctSorted | frontend/src/metabase/lib/expressions/parser.js:441-445 | `uniq` then the two sorts give distinct texts, ordered by type and then name. |
| SuggestProofs.FinishKeepsTexts | frontend/src/metabase/lib/expressions/parser.js:441-445 | Every input text survives de-duplication and sorting. |
| SuggestProofs.FinishMembers | frontend/src/metabase/lib/expressions/parser.js:441-445 | De-duplication and sorting invent nothing. |

## Left out

- **The chevrotain machinery.** This covers the lexer, `performSelfAnalysis`, LL(k) lookahead, error recovery and `computeContentAssist`. The lexer and content assist are parameters.
  - The first recognition error ends the parse. This matches the `recoveryEnabled: false` the source comments out.
  - The kinds of recognition error (mismatched token, no viable alternative, not all input parsed) are kept as data. Their messages and re-sync positions are not. The kind and the token follow from the lookahead as modelled; where chevrotain's LL(k) analysis would look further ahead than the model does, the reported kind and token may differ.
  - `MANY_SEP` decides whether to continue by the static FIRST set of `expression`. It ignores gates.
  - Where the flag is set, an identifier starts a metric call only when `(` follows it: the two-token lookahead that tells a metric call from a field. Otherwise no alternative is viable at the name, since the field alternative is gated out (`Examples.BareNameInAggregationIsRejected`).
- **The `./tokens` module.** It is not part of this model. The token kinds are a datatype. `VALID_AGGREGATIONS` is a list of pairs. `getSubTokenTypes` is a parameter giving the pattern sources of each operator kind.
- **Regular expressions.** `getTokenSource` is modelled as dropping one leading backslash of the pattern source. Reading `PATTERN.source` is left out.
- **Number literals.** `parseFloat`, being floating point, is left out: a number keeps its literal text.
- **String literals.** `JSON.parse` of a string literal is an uninterpreted parameter.
- **Name formatters.** `formatFieldName`, `formatMetricName`, `formatExpressionName` and `formatAggregationName` live outside this file and are uninterpreted parameters.
- **Trim patterns.** The `prefixTrim` and `postfixTrim` regular expressions are opaque constants.
- **Logging.** `console.warn` on a token kind with no expansion is a no-op.
- **`_math` aliasing.** The MBQL backend's `_math` pushes into the array it was given. The model builds new values, so aliasing of that array with the callers' values is not captured.
- **Object key order.** `customFields` is an ordered list of named expressions. JavaScript's reordering of integer-like keys in `Object.keys` is not modelled.
- Metadata.ExpressionForName: does not model inherited properties. The source reads `customFields[name]` as a plain property (lines 148-151), so a name such as `constructor`, `toString`, `valueOf`, `hasOwnProperty` or `__proto__` also finds a member of `Object.prototype`. With no field of that name, `compile` would then give `["expression", name]` and `parse` an `expression-reference` node. The model searches only the listed entries, so `ResolveFieldName`, `Examples.CompiledFieldName` and `Examples.ParsedFieldName` treat such a name as unresolved. `suggest` uses `Object.keys`, which lists own keys only, so it is unaffected.
- **Duplicate custom-expression names.** The keys of a JavaScript object are distinct, but the model does not require this of `customFields`. If there are duplicates, the lookup finds the first entry and `suggest` lists every entry.
- **A missing `customFields`.** This would make `getExpressionForName` throw a `TypeError`. It is not modelled: the list is always present, possibly empty.
- **A missing `tableMetadata`.** In the lookups this is modelled as `None`. In `suggest` a table is always given, so its `TypeError` on a missing table is not modelled.
- **Start rules.** `startRule` is one of the two entry rules, `expression` and `aggregation`. Calling another rule by name is not modelled.
- **Text handling.** Strings are sequences of characters. `toLowerCase` is modelled on ASCII letters only. String order in `sortBy` is code-unit order; UTF-16 surrogate details are not modelled.
- **In-place updates in `suggest`.** The suggestion records are mutated in place by the loops at lines 429-438. The model computes new records, so aliasing between them is not captured.
- SyntaxLeaves.ParseTreeLeaves: weaker than a full round trip, because the source does not give one:
  - metric and unknown-metric nodes drop their parentheses;
  - an expression reference loses its name (see Findings);
  - the commas between an aggregation's arguments are pushed as the raw lexer tokens (line 228). They carry `image`, `startOffset` and `endOffset`, not the `type: "token"`, `text`, `start` and `end` of every other leaf. `Leaves` reads both shapes, so a reader that accepts only `token()` wrappers would miss the commas.

  So the lemma assumes that neither of the first two occurs, and it counts the commas as leaves.
- SyntaxLeaves.EntryLeaves: weaker in the same way as `ParseTreeLeaves`. It counts an aggregation's raw comma tokens (line 228) as leaves alongside the `token()` wrappers, though the source keeps them in the lexer's shape.

## Findings

| source | as written | input that shows it | evidently intended | confidence | as-written member | corrected member |
|---|---|---|---|---|---|---|
| frontend/src/metabase/lib/expressions/parser.js:239-241 | `_expressionReference` passes its argument, already an `identifier` or `string` syntax node, to `token()`. `token()` reads `image`, `startOffset` and `endOffset`, none of which a syntax node has, so the child is a token record with every field undefined. | `parse("Total")` with a custom expression named `Total` and no field of that name. | The reference node keeps the name node it was given, as `_fieldReference` does, so the tree still spans the name's token. | not executed | ExpressionReferences.ReferenceDropsItsName | ExpressionReferences.CorrectedFormulaLeaves |
