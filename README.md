# origin-1/eslint-plugin layout rules, modelled in Dafny

This project models the core of the ESLint plugin `@origin-1/eslint-plugin`:
eight layout and style rules and the bracket-pair scanner they share. Each
rule looks at the token stream of a source file, comments included, and at
a few facts about the syntax tree. It produces reports, each with a fix that
rewrites part of the text.

- `bracket-layout` (module `BracketLayout`) says where a line break must
  touch a bracket. The gaps inside a pair fall under one set of checks, and
  the gaps around it under another. Junctions, the offsets marked by
  immediately-invoked function expressions (IIFEs), are exempt.
- `indent` (module `Indent`) keeps an array of expected indents, one entry
  per line, and updates it in place:
  - listeners add 4 for a non-block statement body;
  - listeners subtract 4 for a `case` head;
  - at program exit, every bracket opened at the end of a line adds 4;
  - lines inside template literals and multi-line comments lose their entry;
  - every line is then checked against its leading white space;
  - block comments move with their line: a leading comment moves as a whole
    by its line's correction, and a comment later on a line moves its further
    lines by the shift in effect for that line.
- `nice-space-before-function-paren`: no space before the parameter list of
  a named function, one space for anonymous ones.
- `no-leading-binary-operator`: an operator that begins a line must not have
  its right operand on that same line.
- `no-spaces-in-call-expression`: no white space between the callee and the
  `(` of a call or `new` expression, unless a line break follows it.
- `no-spaces-in-tagged-template`: no white space between a tag and its
  template, unless a line break follows it.
- `property-colon-spacing`: no space before the colon of a key-value
  property and one space after it. Inside an alignment block, the exception
  is a shared value column: the shift map picks it.
- `property-shorthand`: `{ a: a }` becomes `{ a }` from ECMAScript 2015 on.
- `lib/utils.js` (module `Utils`) holds the bracket-pair scanner. It is a
  loop over bracket tokens that keeps an explicit stack.

Module `Source` models what ESLint's `SourceCode` object offers:
- the text, its lines and line offsets;
- tokens with locations and ranges;
- token navigation that skips comments or includes them;
- `getNodeByRangeIndex`;
- `String.prototype.slice`;
- the application of a fix.

Module `Whitespace` models the three regular expressions the rules use:
- ECMAScript `\s`;
- the separator match `^(?:(?=.)\s)+(?!.)`;
- the lazy block-comment removal `/\/\*[^]*?\*\//g`.

Each rule is modelled in the same form as its source:
- The stateful parts are classes whose fields the methods update:
  - the expected-indent array (`Indent.IndentRule.expectedIndents`);
  - the set of valid junctions (`BracketLayout.BracketLayoutRule.validJunctionSet`);
  - the reports each rule has made.
- The source's loops are methods with loop invariants. Each is proved equal
  to a specification function, and the properties are proved as lemmas about
  those functions.
- The pure helpers are functions.

## Model

| member | source | states |
|---|---|---|
| Utils.BracketTokensAreTheSeven | lib/utils.js:63-67 | A token is a bracket iff it is a punctuator among `( ) > [ ] { }`; `<` never is. |
| Utils.BracketPairsIn | lib/utils.js:15-53 | The stack-based loop yields exactly the pairs of the scan specification. Openers are pushed. A type-parameter `>` is paired with its node's first token. `)`, `]` and `}` pop. |
| Utils.PairsInClosingOrder | lib/utils.js:19-49 | The pairs come out in strictly increasing order of their closing token. |
| Utils.EachClosingYieldedExactlyOnce | lib/utils.js:28-49 | A token closes exactly one yielded pair iff it is `)`, `]`, `}` or a type-parameter `>`. No other token closes any pair. |
| Utils.AngleBracketLeavesStack | lib/utils.js:28-40 | A `>` never changes the stack. It adds the pair (node's first token, `>`) iff its node is a type-parameter list; otherwise nothing changes. |
| Utils.PairsFollowStackDiscipline | lib/utils.js:41-49 | Each pair of a `)`, `]` or `}` opens at the most recent opener not yet matched. If there is none, it has no opening (the `undefined` of an empty pop). |
| Utils.PairsNestOrAreDisjoint | lib/utils.js:18-49 | Two pairs closed from the stack either nest or are disjoint; they never cross. |
| Utils.ScanDepth | lib/utils.js:23-49 | Suppose no `)`, `]` or `}` meets an empty stack. Then the stack depth equals the openers seen minus those closers, and every pair has an opening. |
| Utils.BalancedInputEmptiesStack | lib/utils.js:18-49 | On balanced input the stack ends empty and every stack pair has an opening. |
| Indent.GetActualIndent | lib/rules/indent.js:7-11 | The result is the length of the maximal leading white-space run. |
| Indent.ActualIndentUnique | lib/rules/indent.js:7-11 | Any white-space prefix followed by a non-white-space character or the end is that run. |
| Indent.LineFixAligns | lib/rules/indent.js:155-162 | After the line fix, the line's indent is exactly the expected number of spaces. |
| Indent.AddRangesCounts | lib/rules/indent.js:53-57 | After any sequence of `expectIndents`, a line gains `d` once per range containing it. Deleted entries stay deleted and line 0 is never touched. |
| Indent.DeleteRangesCovers | lib/rules/indent.js:169-173 | After any sequence of `unexpectIndents`, an entry is deleted exactly when some range covers its line. |
| Indent.CommentsBefore | lib/rules/indent.js:59-61 | Gives the start of the maximal run of comments directly before the node's first token. |
| Indent.FindLeadingNodeOrComment | lib/rules/indent.js:59-65 | Picks the first of those comments, or the node, that begins its line. Nothing picked means none of them begins its line. |
| Indent.LeadingIsNodeWhenNothingPrecedesIt | lib/rules/indent.js:59-74 | Without comments before it, a node leads iff it is first on its line. |
| Indent.MultilineCommentsAreComments | lib/rules/indent.js:209-221 | Every recorded entry is a multi-line comment that starts on that line. |
| Indent.CommentFixesShape | lib/rules/indent.js:101-138 | Fix `k` of a block comment acts at the start of line `first + k`. Unindenting removes `min(diff, actual indent)` white-space characters; indenting inserts `-diff` spaces. |
| Indent.CommentShiftsRecorded | lib/rules/indent.js:101-138 | The shift recorded per comment line is what was removed from it, or `diff` when indenting. Other lines keep their shift. |
| Indent.ReportBlockComment | lib/rules/indent.js:83-143 | The loop over the comment's lines yields exactly the specified report and shifts. |
| Indent.MultilineCommentsStartOnTheirLines | lib/rules/indent.js:209-221 | Every comment recorded for a line starts on that line. |
| Indent.LineStepReports | lib/rules/indent.js:223-250 | One iteration appends, in order: the line's own fix or its leading comment's fix, then the move of a comment trailing on it by the shift in effect. |
| Indent.LineFixRecordsShift | lib/rules/indent.js:223-250 | A line that needs a fix gets its expected report and records `actual - expected` as its shift. A multi-line comment later on that line follows with its own report and moves by that same shift, from its second line on. |
| Indent.LeadingCommentMovesAsAWhole | lib/rules/indent.js:235-239 | When a multi-line comment leads a line whose indent is off, only that comment is reported. It moves by `actual - expected` from its first line on, and the comment's lines get their shifts. |
| Indent.StepExtends | lib/rules/indent.js:223-250 | Each line step only appends reports, and a line report it makes is about that line. |
| Indent.LineReportsExactly | lib/rules/indent.js:223-243 | A line gets a line report iff: it has an entry, its indent differs from the clamped expected one, it is not blank, and it does not start with a leading multi-line comment. The report then carries the exact fix. |
| Indent.LineReportsSound | lib/rules/indent.js:228-243 | Every line report is the expected report of a line that needs a fix. |
| Indent.LineReportsComplete | lib/rules/indent.js:228-243 | Every line that needs a fix has its expected report. |
| Indent.ExemptLinesNeverReported | lib/rules/indent.js:228-235 | A line with no entry, or made only of white space, never gets a line report. |
| Indent.CommentReportsShape | lib/rules/indent.js:236-249 | Every block-comment report has a nonzero shift, names a comment and carries that comment's fixes. |
| Indent.CommentReportsSound | lib/rules/indent.js:223-250 | Every block-comment report is made at some line. Either the comment leads that line and the line's indent is off, or it trails on a line with a nonzero shift in effect and moves by that shift. |
| Indent.CommentReportsComplete | lib/rules/indent.js:223-250 | Every leading comment on a line whose indent is off gets its report. So does every trailing comment on a line with a nonzero shift in effect. |
| Indent.ExitIndentsPerLine | lib/rules/indent.js:189-222 | At exit, a line inside a template or a multi-line comment has no entry. Every other line gained 4 per enclosing bracket range. |
| Indent.ReconcileLines | lib/rules/indent.js:223-250 | The per-line loop's reports equal those of the line-by-line specification. |
| Indent.InnerLinesNeverReported | lib/rules/indent.js:200-243 | A line inside a template or a multi-line comment never gets a line report, whatever the listeners did. |
| Indent.IndentRule.constructor | lib/rules/indent.js:277-281 | Entry 0 is unset and lines `1..lineCount` start at `initialIndentUnits * 4`. |
| Indent.IndentRule.ExpectIndents | lib/rules/indent.js:53-57 | Exactly lines `first..last` gain `indent`; deleted entries stay deleted. |
| Indent.IndentRule.UnexpectIndents | lib/rules/indent.js:169-173 | Exactly lines `first..last` lose their entry. |
| Indent.IndentRule.ValidateClause | lib/rules/indent.js:175-183 | A non-block body gets +4 from its leading line through its end line. A block body, or a body with no leading item, leaves the array unchanged. |
| Indent.IndentRule.ValidateSwitchCase | lib/rules/indent.js:259-273 | A case's leading line through its colon's line gets -4. |
| Indent.IndentRule.ValidateSwitchCases | lib/rules/indent.js:259-273 | The loop applies each case's range in order. |
| Indent.IndentRule.ValidateSwitchStatement | lib/rules/indent.js:253-275 | Case heads get -4 only when the switch's `{` is the last token on its line. |
| Indent.IndentRule.IndentBrackets | lib/rules/indent.js:189-199 | Every pair whose opener ends its line adds 4 to the lines through the last token or comment inside it. |
| Indent.IndentRule.UnexpectTemplates | lib/rules/indent.js:200-208 | Lines `start+1..end` of every template token lose their entry. |
| Indent.IndentRule.UnexpectComments | lib/rules/indent.js:209-222 | It records each multi-line comment by its start line and deletes that comment's inner lines. |
| Indent.IndentRule.ValidateProgramExit | lib/rules/indent.js:185-251 | The array becomes the exit indents. The reports gain exactly the reconciliation's reports. |
| BracketLayout.KeywordsBlockOnlyInTheirOwnNode | lib/rules/bracket-layout.js:33-53 | A break after `return`, `throw` or `yield` is forbidden iff the keyword is inside a `ReturnStatement`, a `ThrowStatement` or a `YieldExpression` respectively. A break after any other keyword is allowed. |
| BracketLayout.PunctuatorBreakRules | lib/rules/bracket-layout.js:33-61 | Breaking after a punctuator is allowed iff it is not post-attached. Breaking before one is allowed iff it is pre-detached; `[` is allowed unless in a `TSArrayType`. |
| BracketLayout.Report | lib/rules/bracket-layout.js:97-110 | The fix of a report inserts one line break at the given offset. |
| BracketLayout.ValidateBracketPairShape | lib/rules/bracket-layout.js:112-189 | A single-line pair gets no report, and any pair at most four. Each report is a line break at a bracket edge that is not a valid junction. Each message appears iff the pair spans lines and that check fires. |
| BracketLayout.MoreJunctionsFewerReports | lib/rules/bracket-layout.js:112-189 | Marking more junctions never adds a report. |
| BracketLayout.ValidatePairs | lib/rules/bracket-layout.js:247-251 | The loop over the pairs yields exactly the specified reports. |
| BracketLayout.PairReportBreaksAtEdge | lib/rules/bracket-layout.js:112-189 | Every report of a pair inserts a line break at an edge of a multi-line pair. |
| BracketLayout.PairReportsInsertLineBreaks | lib/rules/bracket-layout.js:247-251 | Every report at program exit inserts a line break at an edge of some multi-line pair. |
| BracketLayout.IIFEJunctions | lib/rules/bracket-layout.js:191-245 | No junction is marked for an optional call. None is marked either when the callee's `)` is not followed by `(`, or when the callee's `(` ends on an earlier line. |
| BracketLayout.JunctionsAreTokenEdges | lib/rules/bracket-layout.js:196-244 | Every junction is the start or end offset of some token. |
| BracketLayout.ValidateIIFEAsWritten | lib/rules/bracket-layout.js:3-5 | As written, the paren predicates are undefined. Every non-optional IIFE throws a `TypeError`; only an optional call returns early. |
| BracketLayout.WrappedCalleeParensStayAttached | lib/rules/bracket-layout.js:198-214 | Once a wrapped callee's junctions are marked, neither the check after its `(` nor the check before its `)` fires. |
| BracketLayout.WrappedIIFEThrowsAsWritten | lib/rules/bracket-layout.js:191-214 | On `(function(){})()` the as-written rule throws. The corrected rule marks the junctions {1, 11, 13, 14}. |
| BracketLayout.BracketLayoutRule.constructor | lib/rules/bracket-layout.js:253 | The junction set starts empty, with no reports. |
| BracketLayout.BracketLayoutRule.ValidateIIFE | lib/rules/bracket-layout.js:191-245 | The corrected listener: the set grows by exactly the IIFE's junctions and reports are unchanged. |
| BracketLayout.BracketLayoutRule.AddCalleeJunctions | lib/rules/bracket-layout.js:196-216 | A bare callee adds nothing and continues from the callee. A wrapped one adds the four parenthesis edges and continues from its `)`. Otherwise it stops without change. |
| BracketLayout.BracketLayoutRule.AddOuterJunctions | lib/rules/bracket-layout.js:217-244 | It adds the argument-list, body and around-the-call junctions exactly when their line conditions hold. |
| BracketLayout.BracketLayoutRule.ValidateProgramExit | lib/rules/bracket-layout.js:247-251 | The reports gain exactly the pair reports of the scanner's pairs against the current junctions. |
| PropertyColonSpacing.SmallestNotBelow | lib/rules/property-colon-spacing.js:17-27 | It is the least value that is at least `minimum`; none iff every value is below it. |
| PropertyColonSpacing.FindSmallestValueNotBelow | lib/rules/property-colon-spacing.js:17-27 | The loop returns that least value. |
| PropertyColonSpacing.KeyValueIndices | lib/rules/property-colon-spacing.js:34-38 | Gives exactly the indices of the key-value properties, in order. |
| PropertyColonSpacing.GetColon | lib/rules/property-colon-spacing.js:65-68 | Gives the first colon token strictly between key and value. |
| PropertyColonSpacing.GetKey | lib/rules/property-colon-spacing.js:75-86 | A computed key gives its source text, an identifier its name, a literal its value. |
| PropertyColonSpacing.GetOverlappingProperties | lib/rules/property-colon-spacing.js:93-107 | A property is in the set iff it shares a line with its predecessor or its successor. |
| PropertyColonSpacing.PropertyAlignment | lib/rules/property-colon-spacing.js:129-145 | A property is mapped iff it starts on the line of the token after its colon. The shift is graphemes through the colon plus the gap. |
| PropertyColonSpacing.GetShiftMap | lib/rules/property-colon-spacing.js:123-156 | The loop builds exactly the specified shift map. |
| PropertyColonSpacing.ShiftMapShape | lib/rules/property-colon-spacing.js:141-155 | The map never has exactly one entry; `expectedShift` is set iff it has entries. Its entries are the aligned positions with their shifts. The expected shift is at least every `colonShift + 1`: the smallest such actual shift, else the largest minimum. |
| PropertyColonSpacing.AlignedBlockKeepsItsShift | lib/rules/property-colon-spacing.js:147-152 | A block already sharing a big enough shift keeps it as the expected one. |
| PropertyColonSpacing.PropertyReportsShape | lib/rules/property-colon-spacing.js:225-257 | A space-before report iff there is space on the colon's line, removing it. A missing-space report iff the amount is positive, inserting it. An extra-space report iff it is negative, removing it before the next token. |
| PropertyColonSpacing.OutOfBlockGapBecomesOne | lib/rules/property-colon-spacing.js:239-257 | Outside an alignment block, the fix leaves exactly one column after the colon, or the gap already is one. |
| PropertyColonSpacing.AlignedPropertyNotReported | lib/rules/property-colon-spacing.js:231-257 | A property on the expected shift with no space before its colon gets no report. |
| PropertyColonSpacing.ShiftMapAgrees | lib/rules/property-colon-spacing.js:127-155 | Every mapped position has an alignment with the recorded shift. None is below the expected shift's minimum. |
| PropertyColonSpacing.RemovalKeepsASpace | lib/rules/property-colon-spacing.js:252-256 | A removal after the colon never reaches the colon. |
| PropertyColonSpacing.VerifySpacing | lib/rules/property-colon-spacing.js:216-260 | The listener returns exactly the specified reports of the object literal. |
| PropertyColonSpacing.VerifyEach | lib/rules/property-colon-spacing.js:223-259 | The loop concatenates each key-value property's reports in order. |
| PropertyColonSpacing.VerifySpacingKeepsASpace | lib/rules/property-colon-spacing.js:216-260 | In everything the rule reports, a removal after a colon leaves at least one column after it. |
| Whitespace.SeparatorMatch | lib/rules/no-spaces-in-call-expression.js:35 | A match, when there is one, satisfies the regular expression's conditions, and it is the only one. |
| Whitespace.LeadingLineTerminatorNeverMatches | lib/rules/no-spaces-in-call-expression.js:35 | A separator that starts with a line terminator never matches. |
| Whitespace.SeparatorMatchIsBlankFirstLine | lib/rules/no-spaces-in-call-expression.js:35 | It matches iff the separator's first line is non-empty white space, followed by a line terminator or the end; the match is that first line. |
| Whitespace.RemovingMatchClearsSeparator | lib/rules/no-spaces-in-call-expression.js:35-38 | After removing the match, the rest no longer matches. |
| Whitespace.SeparatorRemovalShape | lib/rules/no-spaces-in-tagged-template.js:25-31 | The removal exists iff the gap's first line is blank. It removes exactly that line's white space. |
| Whitespace.StripBlockComments | lib/rules/nice-space-before-function-paren.js:84 | The result is never longer than the input, and takes its characters from it. |
| Whitespace.StripKeepsOnlyOriginalCharacters | lib/rules/nice-space-before-function-paren.js:84-87 | Stripping adds no character: no line break or white space that was not there. |
| Whitespace.StripWithoutCommentIsIdentity | lib/rules/nice-space-before-function-paren.js:84 | Text with no `/*` is unchanged. |
| Whitespace.StripDropsLeadingComment | lib/rules/nice-space-before-function-paren.js:84 | A complete block comment in front (its body has no `*/`) is removed whole, up to its first closer, and the rest is stripped as before. |
| NoSpacesInCallExpression.ExprTypeName | lib/rules/no-spaces-in-call-expression.js:55-56 | It is `call` iff the node is a call expression, and `new` iff a `new` expression. |
| NoSpacesInCallExpression.InvokingParenIsUnique | lib/rules/no-spaces-in-call-expression.js:23-31 | At most one token is the `(` that opens the arguments. |
| NoSpacesInCallExpression.CheckSpacing | lib/rules/no-spaces-in-call-expression.js:19-49 | The walk gives no report when no `(` opens the arguments inside the node; otherwise it gives that paren's report. |
| NoSpacesInCallExpression.CallReportShape | lib/rules/no-spaces-in-call-expression.js:32-48 | A report iff the gap's first line is blank. The fix removes exactly that white space, and a gap starting with a line break is never reported. The location is the end of the previous token, with the kind named. |
| NoSpacesInCallExpression.SpacedCallLosesOnlyTheSpace | lib/rules/no-spaces-in-call-expression.js:35-47 | `f.b \n ();` is reported and fixed to `f.b\n ();`. |
| NoSpacesInTaggedTemplate.CheckSpacingShape | lib/rules/no-spaces-in-tagged-template.js:21-41 | A report iff the gap's first line is blank. The fix removes exactly that white space; a leading line break is never reported. The report is on the tagged template at the end of the tag. |
| NoSpacesInTaggedTemplate.SpacedTagLosesOnlyTheSpace | lib/rules/no-spaces-in-tagged-template.js:25-31 | With the tag `f.b`, then a space, a line break, a space and an empty template: only the space before the line break is reported and removed. |
| NiceSpaceBeforeFunctionParen.SecondToken | lib/rules/nice-space-before-function-paren.js:65 | The node's second token, when present, lies inside the node and is not a comment. |
| NiceSpaceBeforeFunctionParen.GetConfigForFunction | lib/rules/nice-space-before-function-paren.js:57-69 | `never` iff named or with type parameters. `ignore` iff otherwise an arrow function that is not async with `(` second. `always` else. |
| NiceSpaceBeforeFunctionParen.OpeningParen | lib/rules/nice-space-before-function-paren.js:81 | Gives the first `(` token of the node, with no `(` before it. |
| NiceSpaceBeforeFunctionParen.CheckFunctionShape | lib/rules/nice-space-before-function-paren.js:76-110 | An ignored function gives none. Otherwise there is a report iff the comment-free gap has no line break and either has white space under `never` (removing the gap) or lacks it under `always` (inserting one space). |
| NiceSpaceBeforeFunctionParen.FixRewritesGap | lib/rules/nice-space-before-function-paren.js:95-106 | Applying the fix changes only the gap between the two tokens. |
| NiceSpaceBeforeFunctionParen.FixSettlesGap | lib/rules/nice-space-before-function-paren.js:83-108 | After its fix, the gap draws no report under the same configuration. |
| NiceSpaceBeforeFunctionParen.CommentIsNotSpace | lib/rules/nice-space-before-function-paren.js:84-87 | A gap of only `/**/` misses a space under `always` and passes under `never`. |
| NoLeadingBinaryOperator.ValidateNodeShape | lib/rules/no-leading-binary-operator.js:62-83 | A report iff the operator starts a line after its left token while its right token shares its line. It goes to the operand's parent at the operator. |
| NoLeadingBinaryOperator.ReportNamesItsOperator | lib/rules/no-leading-binary-operator.js:73-82 | Every report names the operator it was asked about. |
| NoLeadingBinaryOperator.GetFixShape | lib/rules/no-leading-binary-operator.js:23-44 | No fix iff a comment directly before or after the operator shares its line; otherwise the line-break fix. |
| NoLeadingBinaryOperator.FixRemovesNoComment | lib/rules/no-leading-binary-operator.js:23-42 | When there is a fix, the right token directly follows the operator, with no comment between: the fix replaces only white space. |
| NoLeadingBinaryOperator.FixBreaksAfterOperator | lib/rules/no-leading-binary-operator.js:39-43 | The fixed text ends the operator's line after the operator. The operand starts a new line, indented by the operator line's text before the operator. |
| NoLeadingBinaryOperator.ConditionalReportsInOrder | lib/rules/no-leading-binary-operator.js:51-55 | A conditional gets at most one report on `?` and one on `:`, each iff that operator leads its line, `?` first. |
| NoLeadingBinaryOperator.LeadingMinusIsFixed | lib/rules/no-leading-binary-operator.js:39-43 | `1\n\t -\v2` is fixed to `1\n\t -\n\t 2`. |
| PropertyShorthand.CheckPropertyShape | lib/rules/property-shorthand.js:20-37 | A report iff the property is a non-shorthand, non-computed `name: name` (not `__proto__`) with just one token between. The report names the key, spans the property, and its fix is the key's text. |
| PropertyShorthand.FixReplacesPropertyByKey | lib/rules/property-shorthand.js:39-51 | Applying the fix puts the key's source text in place of the property and keeps the rest. |
| PropertyShorthand.EarlyVersionsReportNothing | lib/rules/property-shorthand.js:54-56 | Before ECMAScript 2015 nothing is reported. |
| PropertyShorthand.ReportsArePropertyReports | lib/rules/property-shorthand.js:54-56 | The reports are exactly those of the properties reported in object literals, in their order and at most one each. |
| PropertyShorthand.ReportsOnePerProperty | lib/rules/property-shorthand.js:54-56 | A strictly increasing choice of reported properties accounts for the reports, one report each. |
| PropertyShorthand.ReportsSound | lib/rules/property-shorthand.js:54-56 | Every report belongs to a reported property of an object literal. |
| PropertyShorthand.ReportsComplete | lib/rules/property-shorthand.js:54-56 | Every reported property of an object literal has its report. |
| PropertyShorthand.EscapedKeyKeepsItsSpelling | lib/rules/property-shorthand.js:39-51 | On `{ foo: foo }`, the report names `foo` while the fix keeps the escaped key. |

## Left out

- The rule `no-extra-new` depends on `eslint-scope` scope analysis; `lib/rules/no-extra-new.js` is not part of this model.
- `lib/index.js`, `lib/ts-parser.js` and `gulpfile.js` only register or build the rules; they are not part of this model.
- The ESLint host is not modelled:
  - tokenizing and parsing, given as a `SourceCode` value with its token list and a `getNodeByRangeIndex` function;
  - selector dispatch, given as calls to the listener members;
  - collecting and applying several fixes, modelled by `Source.ApplyFix` for one fix.
- The parser's guarantees are `requires` clauses: tokens in order, tokens on existing lines, offsets that agree with positions (`Source.WellFormed`, `NoLeadingBinaryOperator.TokensOnLines`, `LinesInOrder`, `OffsetsInOrder`).
- Grapheme segmentation (`grapheme-splitter`) is a function parameter `graphemes` of the colon-spacing members; its Unicode tables are not modelled.
- Only three JavaScript regular expressions are written out: `\s`, the separator match and block-comment removal. The JavaScript regex engine is not modelled.
- Report message texts, `messageId` strings, `data` formatting, rule metadata and `makeRuleDocsURL` are left out; messages are datatype constructors.
- Where the source would throw on a token that the parser guarantees is there, the model gives no report or no change:
  - no token before a template, a `(` or an operator;
  - a key-value property with no colon: `PropertyColonSpacing.GetColon` gives none, where the source reads past `null` (lib/rules/property-colon-spacing.js:131-133, 225-228);
  - a function with no `(`: `NiceSpaceBeforeFunctionParen.OpeningParen` gives none, where the source calls `getTokenBefore(null)` (lib/rules/nice-space-before-function-paren.js:81-82);
  - an async arrow function with no second token: `NiceSpaceBeforeFunctionParen.SecondToken` gives none and the configuration is `ignore`, where the source calls `isOpeningParenToken(null)` (lib/rules/nice-space-before-function-paren.js:65);
  - a `switch` with no `{`: `Indent.SwitchRanges` gives no ranges, where the source calls `isLastTokenInLine(null)` (lib/rules/indent.js:255-257);
  - a `case` head with no `:`: `Indent.CaseRange` gives none, where the source reads `colon.loc` (lib/rules/indent.js:265-272).
- A bracket pair with no opening bracket (a closer popped from an empty stack) is skipped by `BracketLayout.PairReports`, `BracketLayout.ValidatePairs`, `Indent.BracketRange` and `Indent.IndentRule.IndentBrackets`. The source passes the `undefined` opening on, to `validateBracketPair` (lib/rules/bracket-layout.js:247-251) and to `isLastTokenInLine` (lib/rules/indent.js:189-191), where it throws a `TypeError`. Input that parses has balanced brackets, so this case is not reached (`Utils.BalancedInputEmptiesStack`).
- Each fix generator is returned as the fixes it yields, computed when the report is made. In `indent`, the shifts a fix records are written at report time: ESLint calls fixers synchronously inside `context.report`.
- `property-colon-spacing`'s shift map is keyed by the property's position among the key-value properties, not by the node object.
- `property-shorthand`'s selector `ObjectExpression>Property.properties` is a flag `inObjectExpression` on each property, and `ecmaVersion` is an integer.
- The one-line listeners are not separate members: `validateBinaryExpression` and `validateDefinition` call `ValidateNode`; the listener tables are not modelled.
- `Utils.IsColonToken`, `Utils.IsTokenOnSameLine`: plain predicates, used by the rules, with no lemma of their own.
- PropertyColonSpacing.MissingSpace: the `NaN` of a mapped property without `expectedShift` is modelled as no report. `ShiftMapShape` proves this cannot happen, because a non-empty map always has `expectedShift`.
- `indent`'s `expectedIndents[line] += indent` on a deleted entry would give `NaN`. The model keeps the entry deleted; only the exit phase deletes entries, after all additions.
- BracketLayout.ValidateBracketPairShape: the check on the token after the opening bracket (lib/rules/bracket-layout.js:138-141) and the one on the token before the closing bracket (lib/rules/bracket-layout.js:155-158) do not test that the neighbour exists. The model uses only a neighbour that exists, where the source passes a missing one to `isTokenOnSameLine`. A bracket pair always has a token between, or the closer itself, so this case is not reached.
- BracketLayout.BracketLayoutRule.ValidateIIFE models the evidently intended paren predicates, not the code as written (see Findings).
- PropertyColonSpacing.Edit keeps an `int` start, because `endOffset + missingSpace` is not shown to be an offset.

## Findings

| source | as written | input that shows it | evidently intended | confidence | as-written member | corrected member |
|---|---|---|---|---|---|---|
| lib/rules/bracket-layout.js:3-5 | It imports `isClosingParenToken` and `isOpeningParenToken` from `../utils`, which does not export them (lib/utils.js:102), so both are `undefined`. `validateIIFE` calls `isClosingParenToken` for every non-optional IIFE, which throws a `TypeError`. | `(function(){})()`, any non-optional IIFE | Predicates that test for a `)` and a `(` punctuator, like `isOpeningParenToken` in nice-space-before-function-paren. | not executed | BracketLayout.WrappedIIFEThrowsAsWritten | BracketLayout.BracketLayoutRule.ValidateIIFE |
