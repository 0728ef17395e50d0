# Improv's formula kernel, modelled and proved

Improv is a multidimensional spreadsheet. This project models the parts of it where a mistake would be hard to see: the formula tree and its limits, named LAMBDAs and their expansion, the analysis that decides what a partial load needs, the formula language as text (printer, tokenizer, parser, and the German spelling), numbers as they are shown and typed, the JSON guard, and the shared state around a computation (connection pool, compile cache, cell rows, item ids). `dafny verify dfyconfig.toml` checks all of it.

## What is modelled

- `Formula.dfy`: the expression tree, the explicit-stack count of its depth and size, and the nested `IF`s that lazy calls become.
- `Lambdas.dfy`, `LambdaParams.dfy`, `LambdaTable.dfy`, `Meaning.dfy`: placeholder ids, simultaneous substitution, expansion under a cycle guard, parameter kinds, who uses a LAMBDA, and a call-by-value evaluator that expansion is compared with. The evaluator is parametric in the built-in operations, so what is proved holds of any of them; a reduced parameter's `OVER` categories and category parameters are part of it.
- `Dependencies.dfy`: the references of a tree, the worklist closure, and recursive evaluation of a whole model, so that a partial load can be compared with a full one.
- `Tokenizer.dfy`, `Parser.dfy`, `Printer.dfy`: formula text as tokens, the recursive-descent parser with its recursion and depth limits, and the printer with the fewest parentheses. Aggregations are part of both, with `OVER`, windows, `WHERE` and `INTO`. That the two undo each other is proved in two layers, from printed formulas: characters to tokens (`PrintedText.dfy`), tokens to trees (`PrintedTokens.dfy`, `PrintedClauses.dfy`, `ReadingBack.dfy`), and both (`DslRoundTrip.dfy`); and from typed text: what the parser makes is legible (`Aggregations.dfy`, `FaithfulFormulas.dfy`, `ParsedFormulas.dfy`), and a legible formula with a part that leads the parser astray is read as another one or refused (`MisreadingSteps.dfy`, `Misreadings.dfy`), so that `TypedFormulas.dfy` can say of every formula that prints whether it comes back. `LostFormulas.dfy` names the ones that do not, and `NeededParentheses.dfy` proves that none of the printed parentheses could go. `Dates.dfy` holds the two date syntaxes that are read and the one that is printed.
- `LocaleText.dfy`: the rewriting scanner between canonical and German text. `Numbers.dfy`, `NumberEntry.dfy`, `Decimals.dfy`: rounding with carry, grouping, and the cell-number reader.
- `JsonNesting.dfy`: the byte scanner that guards the JSON reader, the serializer it is compared with, and the JSON of a formula inside a model.
- `EditDistance.dfy`: the one-row edit distance. `Pool.dfy`: the connection pool as a state machine over its threads' steps. `CompileCache.dfy`: the compile cache with compilation outside its lock, over any interleaving. `CellRows.dfy`: row ranges and batches. `Interner.dfy`: the id interner.
- `Texts.dfy`, `Integers.dfy`: what the others share.

## What the proofs found

- The printer spells formulas that the parser refuses or reads as others. A formula that prints comes back exactly when it is readable, within the limits, and its reading recurses at most 320 deep (`TypedFormulas.ReadsBackExactly`). Readable means that its names find what they name, its literals and dates stand for themselves, no LAMBDA that it calls prints with quotes, no LAMBDA hides an aggregation that it calls, and no argument after an `OVER` looks like one more category.
- The recursion always fits up to depth 214 (`DslRoundTrip.ShallowReadsBack`) and may not at depth 215, well within the limit of 256: minus and NOT in turn take three levels of recursion for two of depth (`DslRoundTrip.AlternatingDoesNotReadBack`).
- What was typed in the modelled grammar without `%` comes back exactly when it is readable (`TypedFormulas.TypedWithoutPercentReadsBack`). With `%` a readable formula may not: a percent prints as a division, in parentheses that the percent sign did not need, and `-(NOT -(NOT … -TRUE%))`, 106 times, is accepted and prints a text that is refused (`TypedFormulas.PercentDoesNotReadBack`).
- A typed date comes back exactly when its year in UTC is one of 0 to 9999, and is refused otherwise (`TypedFormulas.DateReadsBackIff`). `#+12345-01-01#` can be typed, and so can a day of every other year without four digits; it prints with a time and a signed year, which neither syntax has (`TypedFormulas.LateYearDoesNotReadBack`).
- A named LAMBDA whose name is no bare word, such as `All` or `Where`, which are keywords and no functions, or a name starting with `@`, can be defined and called, but its calls print with a quoted name. No formula with such a call anywhere in it comes back (`LostFormulas.QuotedCallIsLost`).
- A named LAMBDA may be called like an aggregation that has no plain form, such as `LINEST`. Formulas with calls of the aggregation made before still print, and never read back as themselves (`LostFormulas.HiddenAggregationIsLost`).
- The printer puts `OVER` after the first reduced argument, wherever it was typed. An argument printed after the categories that looks like a category is read as one more of them (`LostFormulas.CategoryAheadIsLost`). Where a category is called `TRUE`, and no measure is, `TRUE` is such an argument; the same holds of `FALSE` (`LostFormulas.TruthSeemsCategory`) and of `NOT` before anything but a parenthesis (`LostFormulas.NotSeemsCategory`).
- In German, a grouped number without decimals and between 1000 and 999 999 reads back as a thousandth of itself, as the documentation of the reader says; nothing else goes wrong (`NumberEntry.ShownReadsBack`).
- `named_lambda` saturates, so a call id names its LAMBDA again exactly when the sum does not pass the largest id (`Placeholders.NamedLambdaReadsBack`).
- `seeded_from` saturates as well: minted ids are fresh exactly when no item has the largest id (`Interner.ItemInterner.SeededFrom`), where its documentation promises freshness always.
- A formula text comes back from German unchanged exactly when it has no semicolon outside quotes and every called word is a function in its canonical spelling, or neither a function nor a local name of another spelling (`LocaleText.RoundTripIffKept`). The functions whose names start with `@` are no words to the scanner and change nothing of this (`LocaleText.AtNamesAreAllowed`). A semicolon comes back as a comma; an alias, a name in another case and a word that is only a local name come back as the function.

## Model

| member | source | states |
|---|---|---|
| `Formulas.DepthAndNodes` | crates/core_model/src/formula.rs:120-145 | the explicit-stack walk finds the recursive depth and size of every tree of at most 100 000 nodes, and stops one past that with a depth no greater than the true one |
| `Formulas.Visit` | crates/core_model/src/formula.rs:124-145 | taking a node off the stack and pushing its children removes exactly that node's count and loses nothing of the depth still pending |
| `Formulas.CheckDepthByWalk` | crates/core_model/src/formula.rs:147-163 | the check made with the walk accepts a tree exactly when it has at most 100 000 nodes and is no deeper than the limit, and gives the recursive definition's error otherwise |
| `Formulas.DesugarLazyHeight` | crates/core_model/src/formula.rs:104-118 | one lazy call turned into nested IFs adds no more levels than `lazy_levels` says, and leaves no lazy call |
| `Formulas.DepthCoversDesugaredTree` | crates/engine/src/compiler.rs:1455-1525 | the tree the engine walks, every IFS, SWITCH, CHOOSE, IFERROR, IFNA, CLEARERROR and CLEARZERO turned into nested IFs, is never higher than the depth reported for the formula |
| `Placeholders.PlaceholderRanges` | crates/core_model/src/functions.rs:606-648 | parameter and fold-slot placeholders read back exactly what was put in, for every id in their ranges, and no id is both |
| `Placeholders.CategoryPlaceholderReadsBack` | crates/core_model/src/functions.rs:620-631 | a category placeholder reads back as its parameter, and no other category does |
| `Placeholders.NamedLambdaReadsBack` | crates/core_model/src/functions.rs:592-604 | a call id reads back as its LAMBDA if and only if the addition did not saturate |
| `Lambdas.SubstCallees` | crates/core_model/src/lib.rs:692-751 | substitution keeps every call of the body, and adds only calls that the arguments make |
| `Lambdas.ExpansionCallsNothing` | crates/core_model/src/lib.rs:842-901 | a successful expansion contains no named-LAMBDA call |
| `Meaning.SubstitutionLemma` | crates/core_model/src/lib.rs:692-751 | substituting arguments and evaluating is evaluating with the parameters bound, for value, reduced and category parameters, and one fails when the other does |
| `Meaning.ExpandAtMeans` | crates/core_model/src/lib.rs:853-901 | at every depth the guard allows, a successful expansion denotes what the formula does, and a failure other than a size limit has no meaning to keep |
| `Meaning.ExpansionPreservesMeaning` | crates/core_model/src/lib.rs:842-901 | the expanded formula calls no LAMBDA, always has a meaning, and it is the formula's own, whatever the built-ins compute; an error is a size limit or a formula without meaning |
| `LambdaParams.MarkUses` | crates/core_model/src/lib.rs:395-423 | the marks written into the slice are exactly how the body uses each parameter, added to what was marked |
| `LambdaParams.ParamKinds` | crates/core_model/src/lib.rs:365-384 | the kinds exist exactly when no parameter is used both as a value and as a category, and the error names the first that is |
| `LambdaParams.SubstSucceedsIffArgumentsFit` | crates/core_model/src/lib.rs:692-751 | substitution succeeds if and only if every argument fits every use the body makes of it |
| `LambdaParams.MatchingArgumentsSubstitute` | crates/core_model/src/lib.rs:365-423 | a LAMBDA with sound kinds and arguments of those kinds always substitutes |
| `LambdaParams.SubstitutionLeavesNoPlaceholder` | crates/core_model/src/lib.rs:692-751 | placeholder-free arguments for every parameter leave no placeholder in the body |
| `LambdaTable.CallsLambdaIsCallees` | crates/core_model/src/lib.rs:753-764 | the direct-call test is true exactly when the tree's calls and the given LAMBDAs meet |
| `LambdaTable.LambdaUsers` | crates/core_model/src/lib.rs:817-840 | the growing fixpoint ends, and is exactly the other LAMBDAs and the derived measures from which the LAMBDA is reached in the call graph |
| `LambdaTable.OnePass` | crates/core_model/src/lib.rs:821-833 | one pass adds only callers of what is hit already, and adds nothing only when every caller is in |
| `LambdaTable.RedefinitionFrame` | crates/core_model/src/lib.rs:845-901 | redefining a LAMBDA does not change the expansion of a tree that does not come to use it |
| `LambdaTable.RedefinitionLeavesOthersAlone` | crates/core_model/src/lib.rs:817-901 | redefining a LAMBDA leaves the expansion of every derived measure that is not reported exactly as it was, errors included |
| `LambdaTable.AcyclicPathIsShort` | crates/core_model/src/lib.rs:857-862 | a call path in an acyclic table is no longer than the table |
| `LambdaTable.NoCycleErrorAt` | crates/core_model/src/lib.rs:857-862 | along a path of an acyclic table the cycle guard is never reached |
| `LambdaTable.AcyclicNeverReportsACycle` | crates/core_model/src/lib.rs:842-862 | the cycle error is only ever reported of a table that has a cycle |
| `Dependencies.CollectRefs` | crates/core_model/src/formula.rs:165-188 | the accumulator gets exactly the references in traversal order, after what it held |
| `Dependencies.DependencyClosure` | crates/core_model/src/lib.rs:996-1027 | the worklist ends with the least set that holds the roots and is closed under formula references and external-call arguments |
| `Dependencies.Search` | crates/core_model/src/lib.rs:1004-1027 | the loop over the frontier keeps every seen measure needed, and has explored all of them when the frontier is empty |
| `Dependencies.ExpansionReadsWithin` | crates/core_model/src/lib.rs:842-901 | expanding LAMBDAs adds no measure to what a formula reads |
| `Dependencies.PartialLoadIsSound` | crates/core_model/src/lib.rs:996-1027 | with only the input cells of a closed set loaded, every measure of the set has the value it has in the whole model, at every depth of evaluation, cyclic or not |
| `Dependencies.AcyclicValueSettles` | crates/core_model/src/lib.rs:996-1027 | where no measure depends on itself, directly or through others, evaluating deeper than there are computed measures changes no value, so the value is the value |
| `Dependencies.AcyclicDependenciesAreShort` | crates/core_model/src/lib.rs:996-1027 | a path of dependencies in a model without cycles visits no measure twice |
| `Dependencies.LoadForRoots` | crates/core_model/src/lib.rs:996-1027 | loading only the input cells of the roots' closure keeps every root's value, and loads only cells of measures the roots need |
| `PrintedText.UnquoteDoubled` | crates/client/src/dsl.rs:248-259 | a quoted name or text with its quotes doubled unquotes to the original, whatever it contains |
| `PrintedText.LexesName` | crates/client/src/dsl.rs:245-259 | a printed name is read as one token with that name, and bare names are read as words that are no keyword |
| `PrintedText.LexesNumeral` | crates/core_model/src/parser.rs:344-393 | a printed number is read to its end as one token, whatever may follow it in a formula |
| `PrintedText.LexesLiteral` | crates/client/src/dsl.rs:261-274 | every literal that prints is read as the token of that literal |
| `PrintedText.LexesOperator` | crates/client/src/dsl.rs:80-109 | every operator between spaces is read as that operator and no longer one |
| `PrintedText.LexesCallName` | crates/core_model/src/parser.rs:434-474 | a function's name before a parenthesis is read whole, dots included |
| `PrintedText.LexesWindow` | crates/client/src/dsl.rs:218-230 | a printed window is read as its bounds, dots and signs, with no number running into the dots |
| `PrintedText.LexesAggregation` | crates/client/src/dsl.rs:162-216 | the text of an aggregation is read as its parts with `OVER`, the window and `WHERE` after the part they belong to and `INTO` at the end |
| `PrintedText.LexesPrinted` | crates/client/src/dsl.rs:56-230 | the text of every readable formula that prints is read as the tokens it stands for, before anything that may follow it |
| `PrintedTokens.LoosenTo` | crates/core_model/src/parser.rs:737-908 | what a tighter grammar rule reads, a looser one reads too, unless an operator of its own comes next |
| `PrintedTokens.Head` | crates/client/src/dsl.rs:19-44 | a printed formula that binds tighter than NOT or minus does not start with one |
| `PrintedClauses.StepOver` | crates/core_model/src/parser.rs:1158-1200 | a printed `OVER` clause is read back with its categories, window and condition, up to what ends it, given that the condition is |
| `PrintedClauses.WindowRead` | crates/core_model/src/parser.rs:1202-1231 | a printed window is read back as its two bounds |
| `PrintedClauses.PartsThenMarkers` | crates/core_model/src/parser.rs:1251-1335 | a call that the parser makes holds its parts and then its clauses, and nothing else |
| `ReadingBack.ReadsAt` | crates/core_model/src/parser.rs:737-974 | at every grammar level that a formula may stand at without parentheses, its tokens are read back as the formula, or refused for the limits, and which of the two is decided by its nesting |
| `ReadingBack.ReadsChild` | crates/client/src/dsl.rs:45-49 | with parentheses where the operand binds too loosely, an operand is read back as itself at the level its operator demands |
| `ReadingBack.OwnLinks` | crates/core_model/src/parser.rs:715-757 | a chain of left-associative operators is read link by link into the tree that printed it |
| `ReadingBack.ReadsArgs` | crates/core_model/src/parser.rs:1062-1155 | a call's arguments, categories among them, are read back in their places |
| `ReadingBack.ReadsParts` | crates/core_model/src/parser.rs:1062-1155 | the parts of an aggregation are read back as they were before they got their `OVER` categories, together with the clauses, or refused for the limits |
| `DslRoundTrip.PrintedTokenizes` | crates/client/src/dsl.rs:51-230 | the whole printed text tokenizes to the formula's tokens |
| `DslRoundTrip.PrintedReadsBack` | crates/client/src/dsl.rs:1-17 | a printed formula reads back as itself if and only if it is within the limits and its reading recurses no deeper than the parser allows; it never reads back as another formula |
| `DslRoundTrip.PrintIsInjective` | crates/client/src/dsl.rs:423-427 | two formulas of any size that print alike are the same formula |
| `DslRoundTrip.NestByPrecedence` | crates/core_model/src/parser.rs:537-545 | twice the recursion needed never exceeds three times the depth less a margin that depends on the outermost operator |
| `DslRoundTrip.ShallowReadsBack` | crates/core_model/src/parser.rs:537-545 | every formula within the limits and at most 214 deep reads back |
| `DslRoundTrip.AlternatingDoesNotReadBack` | crates/core_model/src/parser.rs:765-847 | a formula 215 deep, within the depth limit of 256, that prints and is refused when read |
| `LostFormulas.LostWithItsPart` | crates/client/src/dsl.rs:1-17 | a formula with a part anywhere in it that leads the parser astray prints as a text that does not read back as it |
| `LostFormulas.QuotedCallIsLost` | crates/client/src/dsl.rs:119-123 | a formula with a call of a LAMBDA whose name needs quotes anywhere in it prints, and does not read back as itself |
| `LostFormulas.HiddenAggregationIsLost` | crates/core_model/src/parser.rs:1004-1009 | a formula with a call of an aggregation whose name a LAMBDA has taken, anywhere in it, prints, and does not read back as itself |
| `LostFormulas.CategoryAheadIsLost` | crates/core_model/src/parser.rs:1237-1249 | a formula with an aggregation anywhere in it, after whose `OVER` an argument looks like a category, prints, and does not read back as itself |
| `LostFormulas.TruthSeemsCategory` | crates/core_model/src/parser.rs:1237-1249 | a truth value looks like a category exactly where a category and no measure has its name |
| `LostFormulas.NotSeemsCategory` | crates/core_model/src/parser.rs:1237-1249 | so does NOT before anything but a parenthesis |
| `NeededParentheses.FirstOperand` | crates/client/src/dsl.rs:91-107 | the rule above an operator's own level stops before that operator, so it never takes the operator's whole expression |
| `NeededParentheses.WordStartsLeaf` | crates/core_model/src/parser.rs:759-789 | above the level of NOT, an expression that starts with a word never has a NOT or a minus leftmost |
| `NeededParentheses.ParenthesesAreNeeded` | crates/client/src/dsl.rs:19-49 | an operand that binds more loosely than its place demands is not read there as itself without parentheses, whatever follows it |
| `ParsedFormulas.TokensAreGood` | crates/core_model/src/parser.rs:275-497 | if what a number's text reads as reads as itself, and what a date's text reads as reads as itself or not at all, the same holds of the tokens of every text |
| `Aggregations.ClauseComesBack` | crates/core_model/src/parser.rs:1317-1335 | the clauses that the parser stores in a call's markers and references are the ones found there again |
| `FaithfulFormulas.AggregationIsFaithful` | crates/core_model/src/parser.rs:1251-1335 | an aggregation put together from faithful arguments and clauses is legible if it prints |
| `ParsedFormulas.ParseAtIsSound` | crates/core_model/src/parser.rs:737-1335 | whatever the parser makes of such tokens is legible if it prints, aggregations included, and without a percent sign it nests no deeper than the text that was read |
| `Aggregations.FinishedFrom` | crates/core_model/src/parser.rs:1251-1335 | the parts and clauses found in a finished aggregation are exactly the ones it was finished from |
| `MisreadingSteps.HiddenIsRefused` | crates/core_model/src/parser.rs:1004-1009 | a call of a name that a LAMBDA hides is refused where its arguments' reading meets an `OVER`, whatever kinds the LAMBDA's parameters have |
| `Misreadings.AbsorbParts` | crates/core_model/src/parser.rs:1237-1249 | a list of categories that takes one from the arguments after it keeps at least one more, and the call still ends where it did |
| `Misreadings.HiddenParts` | crates/core_model/src/parser.rs:1062-1155 | however the arguments are read, as values or as categories, the `OVER` among them is met before their list ends |
| `Misreadings.GoesAt` | crates/core_model/src/parser.rs:737-1335 | at every grammar level a legible formula's tokens are read as the formula if nothing in it leads the parser astray, and if something does, as another formula, or up to a parenthesis that nothing goes on with, or not at all |
| `Misreadings.MisreadTokens` | crates/core_model/src/parser.rs:737-1335 | the tokens of a formula that leads the parser astray are never accepted as the formula |
| `TypedFormulas.TypedReadsBack` | crates/client/src/dsl.rs:1-9 | a typed formula that prints reads back as itself if and only if it is readable and reading its text recurses within the limit; a readable one is refused otherwise |
| `TypedFormulas.TypedWithoutPercentReadsBack` | crates/client/src/dsl.rs:1-9 | a formula typed without a percent sign that prints reads back as itself if and only if it is readable |
| `TypedFormulas.ReadsBackExactly` | crates/client/src/dsl.rs:1-17 | a formula that prints reads back as itself if and only if it is readable, within the limits, and its reading recurses no deeper than the parser allows |
| `TypedFormulas.PercentDoesNotReadBack` | crates/core_model/src/parser.rs:907-927 | a text with a percent sign that is accepted, and whose formula prints as a text that is refused |
| `TypedFormulas.DateReadsBackIff` | crates/core_model/src/parser.rs:246-257 | a typed date comes back from its printed stamp if and only if its year in UTC is one of 0 to 9999, and is refused otherwise |
| `TypedFormulas.LateYearDoesNotReadBack` | crates/core_model/src/parser.rs:246-257 | every year that has not four digits has a day that can be typed, `+12345-01-01` among them, and whose printed text is refused |
| `Dates.LateYear` | crates/core_model/src/parser.rs:246-257 | the first of January of the year 12345 is typed `+12345-01-01` |
| `Dates.PrintedDate` | crates/client/src/dsl.rs:261-274 | a moment's printed text reads as that moment if its year is one of 0 to 9999, and otherwise not at all |
| `Dates.StampRead` | crates/core_model/src/parser.rs:246-257 | the text of a moment of such a year is a date-time of RFC 3339 and stands for that moment |
| `Dates.DateTextComesBackIff` | crates/core_model/src/parser.rs:246-257 | the text that a read date prints as reads as that date exactly when its year in UTC is one of 0 to 9999, and as nothing otherwise |
| `Dates.NewYearIsLost` | crates/core_model/src/parser.rs:246-257 | the first of January of every other year can be typed, and its printed text is no date |
| `TypedFormulas.DatesAreSettled` | crates/core_model/src/parser.rs:246-257 | with these two syntaxes, what a date reads as reads as itself or not at all, as the round trip asks of every date |
| `LocaleText.RewriteText` | crates/core_model/src/locale.rs:187-255 | the index loop writes exactly the images of the text's segments |
| `LocaleText.RewriteNumber` | crates/core_model/src/locale.rs:208-225 | a number is read to its end and only its decimal separator is replaced |
| `LocaleText.CallStillFollows` | crates/core_model/src/locale.rs:232-236 | rewriting does not change whether a word is followed by a call's parenthesis |
| `LocaleText.RewriteTwice` | crates/core_model/src/locale.rs:187-255 | rewriting out and back is one rewriting of the original text: the two scanners cut it alike, called words get the second name of their first name, a semicolon becomes a comma, and nothing else changes |
| `LocaleText.NamesComeBack` | crates/core_model/src/locale.rs:138-152 | out and back, the name of a function becomes its canonical spelling |
| `LocaleText.AtNamesAreAllowed` | crates/core_model/src/functions/dimensional.rs:15-17 | a function whose name starts with `@` added to a table keeps what the round trip asks of the table |
| `LocaleText.UnchangedIffKept` | crates/core_model/src/locale.rs:187-255 | two rewritings in a row leave a text unchanged if and only if it has no semicolon outside quotes and every called word is its own second name |
| `LocaleText.CanonicalizeLocalize` | crates/core_model/src/locale.rs:154-185 | a canonical text shown in a locale and read back is the text with called names settled and semicolons outside quotes as commas |
| `LocaleText.CanonicalTextComesBack` | crates/core_model/src/locale.rs:154-185 | a text without semicolons outside quotes and without called words that are only local names comes back with each called function in its canonical spelling and nothing else changed |
| `LocaleText.RoundTripIffKept` | crates/core_model/src/locale.rs:154-185 | the round trip is the identity if and only if the text has no semicolon outside quotes and every called word is a function in its canonical spelling, or neither a function nor a local name of another spelling |
| `Numbers.RoundAt` | crates/core_model/src/number.rs:86-110 | dropping digits in place with a carry leaves the number rounded half up, one digit longer when the carry goes out of the top |
| `Numbers.Fixed` | crates/core_model/src/number.rs:76-118 | for 15 significant digits the result is the exact decimal rounded half away from zero, with the asked number of fraction digits, no leading zero, and a sign only on a nonzero result; none from 1E+15 |
| `Numbers.RoundingIsUnique` | crates/core_model/src/number.rs:76-78 | there is only one such rounding |
| `Numbers.GroupedFromStart` | crates/core_model/src/number.rs:55-66 | writing separators from the left is grouping by threes from the right |
| `Numbers.FormatNumber` | crates/core_model/src/number.rs:32-74 | a formatted number is the sign, the grouped digits and the fraction of its exact rounding, in the locale's separators |
| `NumberEntry.LocaleReads` | crates/core_model/src/locale.rs:61-105 | read in the locale's separators, shown text has exactly the value shown |
| `NumberEntry.OwnSyntax` | crates/core_model/src/locale.rs:69-72 | shown text either is a number in the canonical syntax with the value shown, or is no such number, or is the one ambiguous shape |
| `NumberEntry.ShownReadsBack` | crates/core_model/src/locale.rs:61-105 | what is shown reads back as the rounded value if and only if it is not German, grouped, without decimals and between 1000 and 999 999 |
| `NumberEntry.ShowAndRead` | crates/core_model/src/number.rs:41-74 | a number shown in a format and typed again is that number rounded, but for the ambiguous German text |
| `JsonNesting.Nesting` | crates/core_model/src/json.rs:77-105 | the byte loop computes the deepest nesting up to the cap, and exceeds the cap exactly when the text does |
| `JsonNesting.ScanValue` | crates/core_model/src/json.rs:77-105 | over the text of any value the scanner comes back to the level it started on, its record raised by that value's depth |
| `JsonNesting.ScanFindsDepth` | crates/core_model/src/json.rs:77-105 | on the text of any JSON value, compact or pretty, the scanner finds the structural depth, whatever brackets, quotes and backslashes its strings hold |
| `JsonNesting.Guard` | crates/core_model/src/json.rs:45-57 | the guard passes a serialized value exactly when it nests at most the cap |
| `FormulaJson.ExprJsonDepth` | crates/core_model/src/formula.rs:75-78 | a formula h high takes at most 3h + 1 levels of JSON |
| `FormulaJson.LambdasJsonDepth` | crates/core_model/src/formula.rs:75-78 | named LAMBDAs whose bodies are at most d deep take 3d + 3 levels, one more in a model |
| `FormulaJson.ModelJsonDepth` | crates/core_model/src/formula.rs:75-78 | a model whose formulas, the bodies of its LAMBDAs among them, are at most d deep takes at most 3d + 6 levels |
| `FormulaJson.FormulasWithinTheLimitPassTheGuard` | crates/core_model/src/json.rs:31-57 | every formula within the depth limit, alone or in a model with measures and LAMBDAs, passes the reader's guard |
| `EditDistances.EditDistance` | crates/core_model/src/functions.rs:835-849 | the one-row computation is the distance |
| `EditDistances.NextRow` | crates/core_model/src/functions.rs:838-847 | the in-place sweep turns one row of the distance table into the next |
| `EditDistances.DistIsShortestScript` | crates/core_model/src/functions.rs:835-849 | the distance is the length of a shortest script of insertions, deletions and substitutions, and no script is shorter |
| `EditDistances.DistSymmetric` | crates/core_model/src/functions.rs:835-849 | the distance is symmetric |
| `EditDistances.Triangle` | crates/core_model/src/functions.rs:835-849 | the triangle inequality |
| `EditDistances.DistZero` | crates/core_model/src/functions.rs:835-849 | the distance is zero exactly between equal words |
| `Pool.InvAlways` | crates/duckdb_improv/src/lib.rs:47-91 | every reachable state keeps the lock exclusive, every connection in one place, and every wakeup |
| `Pool.Conserved` | crates/duckdb_improv/src/lib.rs:66-91 | every step of a thread conserves the connections: free, leased or on their way back |
| `Pool.WakeupKept` | crates/duckdb_improv/src/lib.rs:66-91 | every step keeps a pending notification or a woken thread for every free connection while a thread waits |
| `Pool.PoolIsSafe` | crates/duckdb_improv/src/lib.rs:42-91 | in every reachable interleaving no connection is leased twice, lost or made up, and no wakeup is lost |
| `Pool.QuiescentWaiterMeansAllLeased` | crates/duckdb_improv/src/lib.rs:81-91 | when nothing is under way, a thread waits only if every connection is leased |
| `Pool.WaiterIsNotForgotten` | crates/duckdb_improv/src/lib.rs:81-91 | beside a waiting thread and a free connection, some thread that will wake it can take its next step |
| `CompileCache.CompileDependsOnKey` | crates/duckdb_model/src/calc.rs:155-164 | what is compiled depends only on the formula text and the inputs' names and types |
| `CompileCache.Cache.Get` | crates/duckdb_model/src/calc.rs:147-177 | a lookup gives what compiling gives, hit or miss, keeps every entry true and stores a compiled formula within the bound |
| `CompileCache.Cache.CalcCached` | crates/duckdb_model/src/calc.rs:179-183 | evaluating through the cache is compiling and evaluating without it |
| `CompileCache.InsertKeepsTrue` | crates/duckdb_model/src/calc.rs:165-177 | inserting, clearing a full cache first, keeps every entry what compiling its key gives |
| `CompileCache.CacheNeverShows` | crates/duckdb_model/src/calc.rs:114-183 | however threads interleave misses, compiles, clears and inserts, every answer on the caller's inputs is what compiling and evaluating without a cache gives, a compiled formula has as many names as inputs, and the cache never holds more than max(1, max) entries |
| `CompileCache.BoundIsReached` | crates/duckdb_model/src/calc.rs:165-177 | a run over that many different formulas leaves exactly max(1, max) of them in the cache |
| `CellRows.Starts` | crates/duckdb_model/src/lib.rs:520-534 | the running sums are where each measure's cells start, and the total |
| `CellRows.Cells.Len` | crates/duckdb_model/src/lib.rs:410-414 | the length is that of all measures' cells one after another |
| `CellRows.Cells.Range` | crates/duckdb_model/src/lib.rs:421-439 | a range yields exactly that slice of the concatenation, empty measures and ends past the total included |
| `CellRows.PartsArePrefix` | crates/duckdb_model/src/lib.rs:421-439 | cutting each measure at the two bounds and joining the parts is cutting the concatenation |
| `CellRows.Cursor.Next` | crates/duckdb_improv/src/lib.rs:126-137 | a batch starts where the last ended, holds at most a vector of rows, and is empty only at the end |
| `CellRows.Stream` | crates/duckdb_improv/src/lib.rs:126-137 | the batches together are every row once, in order |
| `Interner.ItemInterner.SeededFrom` | crates/data_source/src/lib.rs:79-100 | after seeding every item is known by name, and the next id is unused exactly when no item has the largest id |
| `Interner.ItemInterner.Intern` | crates/data_source/src/lib.rs:102-114 | a known name keeps its id, an unknown one gets a fresh id, and names and ids stay one to one |
| `Interner.ItemInterner.Register` | crates/data_source/src/lib.rs:116-141 | every interned id has an item with its category and name, existing items keep theirs, and each known category lists each of its ids, none newly twice |
| `Interner.NothingToAppend` | crates/data_source/src/lib.rs:116-141 | where all is registered, registering again appends nothing |
| `Interner.Import` | crates/data_source/src/lib.rs:79-141 | seeding, interning any list of names and registering gives every name an id whose item has that category and name, and no id stands for two names |

## Left out

- Numbers: floating-point arithmetic and the runtime's own digit generation. Rounding starts from 15 significant digits and an exponent; a formula's number is the text that prints it, and that its text reads back as it is a condition of the round trip (`PrintedTokens.LiteralReads`).
- Dates: the date library is not part of the repository. `Dates.dfy` models its two readers from section 5.6 of RFC 3339 and from the documented `%Y-%m-%d`, and its printer from the documented form with a signed year outside 0 to 9999.
- DslRoundTrip.PrintedReadsBack: folds (`SCAN`, `REDUCE`, `FIXPOINT`) print as nothing in the model, because reading their bodies back takes the scopes of `LAMBDA` parameters.
- Formula text: the parser's special forms (`LET`, `LAMBDA` called on the spot, `MAP`, the folds, `BYROW`, `BYCOL`, `SEQUENCE`, `MAKEARRAY`), named arguments and `OVER ALL`, which the model's parser refuses. Parsing a whole definition (`Name = …`, `SQL`, `CALL`) is not part of it either.
- Parser.ParseBound: a window's offset is a numeral without fraction or exponent, so offsets from 1E+21 on are refused.
- Parser.Link: the depth of an operator chain is the recursive depth; the walk's own count can be lower past 100 000 nodes, where the whole formula is refused anyway.
- Parser.ParseTokens: one error stands for every limit a whole formula may pass, and no error carries its position.
- TypedFormulas.ReadsBackExactly: the book is taken to be consistent (`FaithfulFormulas.GoodBook`): what a name finds has that name, the tables of functions agree with each other, and what a number's text reads as reads as itself.
- The type checker, the compiler other than its rewriting of lazy calls, and the dataflow engine. In `CompileCache.dfy` the parser, the checker, the type inference and the evaluator are arbitrary functions; in `Meaning.dfy` and `Dependencies.dfy` the built-in operations are.
- Hash and tree maps' orders: where the source iterates a map, any order is allowed, and results are sets. The sorting of rows within a measure is not modelled.
- Integer widths: ids are bounded, and minting an id past the largest is a precondition of interning. Lengths and counts are unbounded.
- Stack growth, the serialization framework and the JSON parser behind the guard. An error literal is always taken in its deepest JSON form.
- FormulaJson.ModelJsonDepth: a measure's and a model's other fields are taken to nest no deeper than the room given.
- FormulaJson.FormulasWithinTheLimitPassTheGuard: takes the same of the other fields.
- Numbers.FormatNumber: the General form is a parameter, and so is what is shown for numbers from 1E+15 on.
- Pool.Run: poisoned locks and a pool that is not yet initialized. Spurious wakeups are part of it.
- Memory orders and fairness of the pool's lock: its steps are atomic, and that a runnable thread runs is not part of the model.
- Command line, windows, wire types, storage engines, views, scenarios, hints, completion and scheduling: input and output, or easy members.
