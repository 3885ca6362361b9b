# ClojuRS reader and evaluator, modelled in Dafny

ClojuRS reads one EDN/Clojure-like form from a line of text and prints what it
denotes. Printing a list evaluates it. The entry point `read` works in four
steps:
- it rewrites every `#{` to `@`, the set opener the reader knows;
- it drops leading whitespace;
- it reads one form with a hand-written recursive-descent reader;
- it prints that form.

Evaluating a list looks up its head symbol in a fixed name table (`STD`) and
hands the remaining elements, unevaluated, to the builtin found there.

The model follows the crate module by module:

| Dafny module | file | what it holds |
|---|---|---|
| `Errors` | errors.dfy | the `Error` enum, `Option`, `Result`, and `Outcome` (a result, or an abort: a `todo!()` panic, a second lock of the data-store mutex by the thread holding it, or running out of evaluation fuel) |
| `Numerals` | numerals.dfy | `BigInt` text: printing and `str::parse::<BigInt>` |
| `Values` | values.dfy | the value type `DefinitionTypes`, its text-based ordering, and the `+`/`-` operator tables, with the insertion loops of their set and map arms as methods |
| `Runtime` | runtime.dfy | the `STD` table and the `Host` record of everything the shown code calls but does not define |
| `Grammar` | grammar.dfy | what each reader of `src/parser.rs` accepts, as functions of the text and a position |
| `Parser` | parser.dfy | class `Cursor`: the readers as methods advancing a position field, each proved to do what the `Grammar` function of the same name describes |
| `Math`, `Logic`, `Collections` | math.dfy, logic.dfy, collections.dfy | the builtins of `src/funtions/` that do not print |
| `Evaluator` | evaluator.dfy | `print`, `eval_list`, and the builtins that print or evaluate lists (`get`, `str`, `println!`, `keyword`); these form one recursive family, bounded by fuel |
| `Helper` | helper.dfy | `maybe_replace`, and the `str` operations it is built on |
| `Lib` | lib.dfy | `read` |

The `Host` record stands for what the shown code calls but does not define:
- the `DATA` store, passed as a map that is only read;
- `DefinitionTypes::eval`;
- floating-point arithmetic and text;
- the derived `Debug` text;
- the iteration orders of hash and tree collections;
- the re-parsing of a list's printed text by `pos?`, `neg?` and `num?`;
- the builtins whose bodies are not shown.

Every property below holds for every host.

## The code as written

The model follows the code where it differs from the EDN format it reads and from the crate's test suite:

- A bare `-` head goes to the number reader and fails (`Grammar.BareMinusFails`). So `(- 1 2)` is a read error, not a subtraction.
- Keywords keep their `:` in the stored name and `print` adds another, so `:a` reads back as `::a` (`Lib.KeywordRead`).
- The name registered for the constant 42 is `meaning-of-life?`, with the question mark (`Runtime.MeaningOfLifeNeedsQuestionMark`).
- The `true`/`false`/`nil` lookahead accepts only a space, `,`, `]`, `}`, `)` or the end of the text after the word. In EDN any whitespace ends a token, but here a newline or tab after the word makes it a symbol (`Grammar.TrueThenNewlineIsSymbol`).
- The `#{` rewrite is textual, so it also changes string literals (`Lib.StringsRewritten`).

## Model

| member | source | states |
|---|---|---|
| Values.CombineCollections | src/definitions.rs:236-298 | the collection arms fail exactly when the right operand is not a collection of the same kind, and every such failure is `CantEval` |
| Values.InsertAllElems | src/definitions.rs:236-248 | the clone-then-insert loop of the set arm yields the union of the two sets |
| Values.InsertAllEntries | src/definitions.rs:261-273 | the clone-then-insert loop of the map arm keeps every key of either map, with the right-hand value where both have the key |
| Values.OrderIsTotalPreorder | src/definitions.rs:75-89 | comparing display texts gives `Equal` exactly for equal texts; `Less` and `Greater` mirror each other; `Less` is transitive |
| Values.OrderIsTextual | src/definitions.rs:54-89 | the order is textual, not numeric: 10 sorts before 9 and 1/2 before 1/3; derived equality tells `Int 1` from `Rational(2, 2)` |
| Values.AddIsExact | src/definitions.rs:203-235 | on integers and rationals `+` succeeds and denotes the exact sum; the result is an integer exactly when both operands are |
| Values.SubIsExact | src/definitions.rs:340-372 | on integers and rationals `-` succeeds and denotes the exact difference; the result is an integer exactly when both operands are |
| Values.SubUndoesAdd | src/definitions.rs:203-372 | subtracting what was added gives back the same quantity |
| Values.DenominatorsNeverReduce | src/definitions.rs:203-372 | mixed integer/rational operations keep the rational's denominator; rational/rational operations multiply the denominators without reducing (1/2 + 1/2 is 4/4) |
| Values.NilAbsorbs | src/definitions.rs:187-436 | a number or Nil on the left with Nil on the right gives Nil, and Nil on the left gives Nil whatever the right, for both `+` and `-` |
| Values.AddErrors | src/definitions.rs:162-304 | outside float conversion, `+` fails exactly for a keyword, char or bool on the left, a string with a non-string, a number with neither a number nor Nil, or a collection with a different kind; every failure is `CantEval` |
| Values.AddJoinsStrings | src/definitions.rs:171-180 | string plus string is their concatenation |
| Values.SubErrors | src/definitions.rs:306-441 | `-` fails in the same cases as `+`, and also for every string on the left |
| Values.SubIsAddOnCollections | src/definitions.rs:373-435 | on a collection on the left, `-` and `+` give the same result |
| Values.CollectionsCombine | src/definitions.rs:236-298 | same-kind collections combine: vectors append the right after the left, sets take the union, maps merge with the right-hand value winning |
| Values.Add | src/definitions.rs:165-304 | a successful `+` gives a value `+` and `-` accept again; its cases are stated by `AddIsExact`, `AddErrors`, `AddJoinsStrings`, `NilAbsorbs` and `CollectionsCombine` |
| Values.Sub | src/definitions.rs:309-441 | a successful `-` gives a value `+` and `-` accept again; its cases are stated by `SubIsExact`, `SubErrors`, `SubUndoesAdd`, `NilAbsorbs` and `SubIsAddOnCollections` |
| Numerals.IntTextRoundTrip | src/parser.rs:161-169 | parsing the printed text of any integer gives that integer back |
| Numerals.NotAnInteger | src/parser.rs:160-175 | a text with a character that is not a digit, `_` or a sign is no integer |
| Numerals.IntToString | src/definitions.rs:100 | the text of an integer is never empty and starts with `-` exactly for a negative integer; `IntTextRoundTrip` reads it back |
| Numerals.ParseBigInt | src/parser.rs:161-169 | `str::parse::<BigInt>`; `IntTextRoundTrip` and `NotAnInteger` state what it accepts and refuses |
| Grammar.Span | src/parser.rs:151-154 | `take_while(..).count()` stays within the text, covers only kept characters, and stops at the end or at the first character not kept |
| Grammar.NextIndex | src/parser.rs:146-150 | the index of the next character exists exactly when a character is left; otherwise it is `Reason("Could not identify symbol index")` |
| Grammar.StrFrom | src/parser.rs:69-108 | a string read succeeds only by reaching a closing `"`, and stops right behind it |
| Grammar.Split | src/parser.rs:161-162 | `split('/')` gives at least one part, at least two when the separator occurs, and no part holds the separator |
| Grammar.IsWordThenDelimiter | src/parser.rs:202-242 | the lookahead guard holds only when the characters taken ahead start with the word |
| Grammar.Parse | src/parser.rs:15-26 | on success the reader has not moved backwards and stays within the text |
| Grammar.ParseEdn | src/parser.rs:28-42 | on success the scalar readers have not moved backwards and stay within the text |
| Grammar.Items | src/parser.rs:266-281 | the element loop succeeds only by consuming the collection's own closing character |
| Grammar.ReadVec | src/parser.rs:260-282 | a vector read succeeds only after consuming at least one character |
| Grammar.ReadList | src/parser.rs:284-306 | a list read succeeds only after consuming at least one character |
| Grammar.ReadSet | src/parser.rs:308-330 | a set read succeeds only after consuming at least one character |
| Grammar.Entries | src/parser.rs:383-407 | the entry loop succeeds only after consuming at least one character |
| Grammar.ReadMap | src/parser.rs:374-408 | a map read succeeds only after consuming at least one character |
| Grammar.ReadKey | src/parser.rs:44-67 | the keyword reader; stated by `KeywordStopsAtDelimiter`, `KeywordTextRead` and `LeadAtEndOfText` |
| Grammar.ReadStr | src/parser.rs:69-109 | the string reader; stated by `StrFrom`, `StringRoundTrip`, `EscapesDecode` and `UnknownEscapeFails` |
| Grammar.ReadSymbol | src/parser.rs:111-140 | the symbol reader; stated by `SymbolStopsAtDelimiter` |
| Grammar.NumberValue | src/parser.rs:160-175 | the classification of a number run; stated by `IntegerText`, `RationalText`, `BareMinusText`, `SlashAfterDotIsNoFloat`, `SecondDotIsNoFloat` and `NoEmptyDenominator` |
| Grammar.ReadNumber | src/parser.rs:142-177 | the number reader; stated by `NumberRunRead`, `NumberTextRead`, `IntegerReadsBack`, `RationalReadsBack` and `BareMinusFails` |
| Grammar.ReadChar | src/parser.rs:179-190 | the character reader: the next character, whatever it is; `Parser.Cursor.ReadChar` is proved to do the same |
| Grammar.ReadBoolOrNil | src/parser.rs:192-258 | the literal reader; stated by `WordAheadMeans`, `TrueAtEnd`, `FalseBeforeComma`, `NilBeforeParen` and `TrueBeforeOtherCharacters` |
| Grammar.ParseText | src/lib.rs:71-72 | reading one form from the start of a text; stated by `NothingToRead`, `VectorLeftOpen`, `MapLeftOpen` and the read-back lemmas |
| Grammar.EscapedTextReadsBack | src/parser.rs:69-108 | escaped text followed by `"` decodes to the original text, and the reader stops behind the quote |
| Grammar.StringRoundTrip | src/parser.rs:69-108 | `"`, the escaped text, `"` and anything after read back as that string, stopping right behind the closing quote |
| Grammar.EscapesDecode | src/parser.rs:75-80 | `\t \r \n \\ \"` decode to tab, carriage return, newline, backslash and quote |
| Grammar.UnknownEscapeFails | src/parser.rs:81-86 | a backslash before any other character gives `Reason("Invalid escape sequence \c")` |
| Grammar.SymbolStopsAtDelimiter | src/parser.rs:111-139 | a symbol is the leading character and the symbol characters behind it; the reader stops before whitespace, `)`, `]` or `}` (or after 201 characters) and leaves the delimiter unread |
| Grammar.KeywordStopsAtDelimiter | src/parser.rs:44-67 | a keyword holds `:` and the run of keyword characters; a `{` in that run, and only that, is the namespace-map error; the reader stops before the delimiter |
| Grammar.KeywordTextRead | src/parser.rs:44-67 | `:` and keyword characters without `{` read as one keyword that keeps the colon in its name |
| Grammar.WordAheadMeans | src/parser.rs:201-242 | the `true`/`false`/`nil` guard holds exactly when the word follows and is then followed by a space, `,`, `]`, `}`, `)` or the end of the text |
| Grammar.TrueAtEnd | src/parser.rs:202-217 | `true` at the end of the text is the literal |
| Grammar.FalseBeforeComma | src/parser.rs:218-233 | `false` before a comma is the literal, and the comma is left unread |
| Grammar.NilBeforeParen | src/parser.rs:234-255 | `nil` before `)` is Nil, and the parenthesis is left unread |
| Grammar.TrueBeforeOtherCharacters | src/parser.rs:201-256 | `true` followed by any other character is read as a symbol |
| Grammar.TrueThenLetterIsSymbol | src/parser.rs:202-256 | `truex` is the symbol `truex` |
| Grammar.TrueThenNewlineIsSymbol | src/parser.rs:202-256 | `true` and a newline is the symbol `true`, not the literal |
| Grammar.SplitJoin | src/parser.rs:161-162 | the `/`-parts joined with `/` give the text back |
| Grammar.IntegerReadsBack | src/parser.rs:142-177 | an integer's printed text, followed by a character that cannot continue a number, reads as that integer and stops before that character |
| Grammar.NumberTextRead | src/parser.rs:142-177 | a number run followed by a non-number character reads as its classification, stopping at the run's end |
| Grammar.NumberRunRead | src/parser.rs:142-177 | a text that starts with a digit or `-` reads as the classification of its number run, or fails with that classification's error |
| Grammar.IntegerText | src/parser.rs:160-169 | the printed text of an integer is classified as that integer |
| Grammar.RationalReadsBack | src/parser.rs:142-177 | `n/d` with a non-negative denominator, followed by a non-number character, reads back as `Rational(n, d)` |
| Grammar.RationalText | src/parser.rs:161-166 | the text `n/d` is classified as `Rational(n, d)` |
| Grammar.BareMinusFails | src/parser.rs:142-177 | `-` before a non-number character is an error naming `-` and index 1, with no fallback to a symbol |
| Grammar.BareMinusText | src/parser.rs:160-175 | `-` alone is classified as no number |
| Grammar.NotFloatText | src/parser.rs:168-170 | a text holding a character other than a digit, `.` or a sign is no float literal |
| Grammar.TwoDotsAreNoFloat | src/parser.rs:168-170 | a text with two `.` is no float literal |
| Grammar.RationalFromFirstTwoParts | src/parser.rs:161-166 | with three integer parts, `1/2/3` is the rational built from the first two |
| Grammar.SlashAfterDotIsNoFloat | src/parser.rs:161-168 | `1.5/2` is not a rational, and its `.` demands a float literal, so it is the float error |
| Grammar.SecondDotIsNoFloat | src/parser.rs:168 | `1.2.3` is the float error |
| Grammar.EmptyDenominatorFails | src/parser.rs:161-175 | `1/` is neither a rational nor another number, and the error names the text and the index |
| Grammar.NoEmptyDenominator | src/parser.rs:161-175 | `1/` fails with the error naming the index the reader was given, whatever that index is |
| Grammar.LeadAtEndOfText | src/parser.rs:15-42 | with no character left after the lead, `:` reads the keyword `:`, `"` is an unterminated string, and every other reader fails to find the next index |
| Grammar.NothingToRead | src/parser.rs:28-42 | empty text is `Reason("Expression could not be parsed")`; a lone digit fails for lack of a next index |
| Grammar.ItemsAccumulate | src/parser.rs:266-281 | the elements the loop collects do not depend on what it has collected before |
| Grammar.EntriesArePairedItems | src/parser.rs:374-408 | the map reader reads the same forms, up to the same `}`, as the element loop, and pairs them as key and value |
| Grammar.LaterPairWins | src/parser.rs:402-406 | one more key and value replace any earlier value of that key |
| Grammar.TrailingKeyDropped | src/parser.rs:384-385 | a key still waiting for its value at `}` is dropped |
| Grammar.UnclosedCollectionFails | src/parser.rs:266-281 | when the closing character does not occur in the rest of the text, the element loop fails, and so does the entry loop without a `}` |
| Grammar.EntriesEndAtBrace | src/parser.rs:383-407 | the entry loop succeeds only by consuming a `}` |
| Grammar.EndOfTextInCollection | src/parser.rs:266-281 | with only separators left, the element loop and the entry loop fail with `None could not be parsed at char count i`, `i` being the index the reader started at, whatever was read before |
| Grammar.DigitRead | src/parser.rs:142-177 | one digit before a character that cannot continue a number reads as that digit's value and stops there |
| Grammar.VectorLeftOpen | src/parser.rs:260-282 | `[1 ` reads the element, then fails at the end of the text naming index 1 |
| Grammar.MapLeftOpen | src/parser.rs:374-408 | `{1 2 ` reads the pair, then fails at the end of the text naming index 1 |
| Grammar.MessageForUnclosed | src/parser.rs:394-398 | that error's text is `None could not be parsed at char count 1` |
| Parser.Cursor.constructor | src/parser.rs:11-13 | `tokenize` gives a cursor over the text, before its first character |
| Parser.Cursor.Next | src/parser.rs:268 | `chars.next()` yields the character at the cursor and moves past it |
| Parser.Cursor.CountWhile | src/parser.rs:151-154 | counting ahead gives the length of the run and does not move the cursor |
| Parser.Cursor.Peek | src/parser.rs:203 | looking ahead gives the next `k` characters, or fewer at the end, and does not move the cursor |
| Parser.Cursor.Take | src/parser.rs:213 | taking `n` characters yields them and moves past them |
| Parser.Cursor.ReadKeyOrNsmap | src/parser.rs:44-67 | the keyword reader yields what `Grammar.ReadKey` reads, and on success leaves the cursor where it stops |
| Parser.Cursor.ReadStr | src/parser.rs:69-109 | the `try_fold` over the characters yields what `Grammar.ReadStr` reads, and on success leaves the cursor where it stops |
| Parser.Cursor.ReadSymbol | src/parser.rs:111-139 | yields what `Grammar.ReadSymbol` reads, and on success leaves the cursor where it stops |
| Parser.Cursor.ReadNumber | src/parser.rs:142-177 | yields what `Grammar.ReadNumber` reads, and on success leaves the cursor where it stops |
| Parser.Cursor.ReadChar | src/parser.rs:179-190 | yields what `Grammar.ReadChar` reads, and on success leaves the cursor where it stops |
| Parser.Cursor.ReadBoolOrNil | src/parser.rs:192-258 | yields what `Grammar.ReadBoolOrNil` reads, and on success leaves the cursor where it stops |
| Parser.Cursor.Parse | src/parser.rs:15-26 | yields what `Grammar.Parse` reads, and on success leaves the cursor where it stops |
| Parser.Cursor.ParseEdn | src/parser.rs:28-42 | yields what `Grammar.ParseEdn` reads, and on success leaves the cursor where it stops |
| Parser.Cursor.ReadItems | src/parser.rs:266-281 | the loop pushing into `res` yields the elements `Grammar.Items` collects, and stops behind the closing character |
| Parser.Cursor.ReadVec | src/parser.rs:260-282 | yields what `Grammar.ReadVec` reads, and on success leaves the cursor where it stops |
| Parser.Cursor.ReadList | src/parser.rs:284-306 | yields what `Grammar.ReadList` reads, and on success leaves the cursor where it stops |
| Parser.Cursor.ReadSet | src/parser.rs:308-330 | yields what `Grammar.ReadSet` reads, and on success leaves the cursor where it stops |
| Parser.Cursor.ReadMap | src/parser.rs:374-408 | yields what `Grammar.ReadMap` reads, and on success leaves the cursor where it stops |
| Parser.Cursor.ReadEntries | src/parser.rs:380-407 | the loop with its pending key and value yields the map `Grammar.Entries` builds, and stops behind the `}` |
| Parser.Cursor.ParseForm | src/lib.rs:71-72 | reading from the start of the text yields what `Grammar.ParseText` reads |
| Helper.TrimStart | src/lib.rs:70 | `trim_start` gives a suffix of the text that does not start with whitespace; everything dropped is whitespace |
| Helper.ReplaceAll | src/helper.rs:10 | `str::replace`; stated by `NoOccurrenceNoChange`, `NoSetOpenerLeft` and `OpenerInQuotes` |
| Helper.MaybeReplaceStr | src/helper.rs:7-15 | `maybe_replace` on `&str`; stated by `MaybeReplaceIsReplace` and `ImplsAgree` |
| Helper.MaybeReplaceCow | src/helper.rs:17-25 | `maybe_replace` on `Cow<str>`; stated by `MaybeReplaceIsReplace` and `ImplsAgree` |
| Helper.NoOccurrenceNoChange | src/helper.rs:9-13 | without an occurrence of the pattern, replacing changes nothing |
| Helper.MaybeReplaceIsReplace | src/helper.rs:7-25 | both impls give the text of a plain replace-all; the `contains` test is only a shortcut |
| Helper.ImplsAgree | src/helper.rs:7-25 | both impls give the same text for the same input, and the result is borrowed exactly when nothing matched |
| Helper.NoSetOpenerLeft | src/helper.rs:10 | once every `#{` is rewritten to `@`, no `#{` is left |
| Helper.OpenerInQuotes | src/helper.rs:8-14 | the rewrite reaches inside a string literal: `"#{…"` becomes `"@…"` |
| Lib.ReadText | src/lib.rs:69-74 | `read` as it runs (rewrite, trim, a cursor, one form, then print) gives the result of the `read` function |
| Lib.Clean | src/lib.rs:70 | the cleaning step of `read`; stated by `CleanText` and `PlainTextUnchanged` |
| Lib.Read | src/lib.rs:69-74 | `read` as a function of the text; stated by `ParsedThenPrinted`, `BlankTextFails`, `LeadingIntegerRead`, `KeywordRead` and `StringsRewritten` |
| Lib.CleanText | src/lib.rs:70 | the cleaned text holds no `#{` and does not start with whitespace; it is the rewritten text without its leading whitespace |
| Lib.PlainTextUnchanged | src/lib.rs:70 | a text without `#` that does not start with whitespace is read as it is |
| Lib.BlankTextFails | src/lib.rs:69-74 | empty or whitespace-only text is `Reason("Expression could not be parsed")` |
| Lib.LeadingIntegerRead | src/lib.rs:69-74 | an integer followed by a non-number character prints as that integer, and the text behind it is ignored |
| Lib.KeywordRead | src/lib.rs:69-74 | `:k` prints as `::k` |
| Lib.ParsedThenPrinted | src/lib.rs:71-73 | when the cleaned text parses, `read` is the print of the parsed value |
| Lib.StringsRewritten | src/lib.rs:70-73 | the text `"#{…"` reads as the string `@…` |
| Lib.QuotedOpenerParsed | src/lib.rs:70-72 | the cleaned text of `"#{…"` parses as the string `@…` |
| Lib.QuotedOpenerCleaned | src/lib.rs:70 | cleaning `"#{…"` gives `"@…"` |
| Runtime.EveryBuiltinRegistered | src/lib.rs:34-64 | every builtin is registered in `STD` under its own name |
| Runtime.ArithmeticRegistered | src/lib.rs:35-38 | `+`, `-`, `*` and `/` are registered |
| Runtime.NumericTestsRegistered | src/lib.rs:39-42 | `meaning-of-life?`, `neg?`, `pos?` and `num?` are registered |
| Runtime.ComparisonsRegistered | src/lib.rs:43-51 | the comparisons, `true?`, `false?`, `nil?` and `throw` are registered |
| Runtime.LibraryRegistered | src/lib.rs:52-63 | the string, keyword and collection builtins are registered |
| Runtime.MeaningOfLifeNeedsQuestionMark | src/lib.rs:39 | the name is `meaning-of-life?`; `meaning-of-life` is not registered |
| Runtime.EnumerationCount | src/definitions.rs:104-152 | an order that lists every member of a set once is as long as the set is large |
| Math.FoldAdd | src/funtions/math.rs:138-143 | a successful `try_fold` with `+` gives a value `+` and `-` accept |
| Math.FoldSub | src/funtions/math.rs:145-152 | a successful `try_fold` with `-` gives a value `+` and `-` accept |
| Math.FoldAddIsExact | src/funtions/math.rs:138-143 | folding `+` over exact numbers gives the accumulator plus the total |
| Math.FoldSubIsExact | src/funtions/math.rs:145-152 | folding `-` over exact numbers gives the accumulator minus the total |
| Math.PlusIsExactSum | src/funtions/math.rs:138-143 | on integers and rationals, `+` is the exact sum of its arguments |
| Math.SubtractIsExactDifference | src/funtions/math.rs:145-152 | on integers and rationals, `-` is the first argument minus the exact sum of the others |
| Math.Plus | src/funtions/math.rs:138-143 | `plus`; stated by `FoldAdd`, `PlusIsExactSum` and `FoldCornerCases` |
| Math.Subtract | src/funtions/math.rs:145-152 | `sub`; stated by `FoldSub`, `SubtractIsExactDifference`, `SubtractPanics` and `FoldCornerCases` |
| Math.FoldCornerCases | src/funtions/math.rs:138-152 | `(+)` is 0; `(-)` is `Reason("Couldn't parse form content")`; `(- x)` is `x`, not negated; `(+ 1 2/3)` is 5/3; `(- 1 2/3)` is 1/3; an unevaluated list argument is `CantEval` |
| Math.SubtractPanics | src/funtions/math.rs:145-152 | `-` reaches `todo!()` exactly when a symbol or list comes first and more arguments follow |
| Math.SignItem | src/funtions/math.rs:43-136 | one argument of `pos?`/`neg?` never yields an error |
| Math.AllSigned | src/funtions/math.rs:44-136 | the `all` over the arguments never yields an error |
| Math.SignTest | src/funtions/math.rs:43-136 | `pos?` and `neg?` answer a Bool or abort; they never fail |
| Math.NumericItem | src/funtions/math.rs:10-38 | one argument of `num?` never yields an error |
| Math.AllNumeric | src/funtions/math.rs:9-40 | the `all` over the arguments never yields an error |
| Math.NumericTest | src/funtions/math.rs:8-41 | `num?` answers a Bool or aborts; it never fails |
| Math.SignTestOnLiterals | src/funtions/math.rs:43-136 | over literals, `pos?` (`neg?`) holds exactly when every argument is above (below) zero, with a rational judged by its numerator |
| Math.NumericTestOnLiterals | src/funtions/math.rs:8-41 | over literals, `num?` holds exactly when every argument is a number; a symbol after the first argument counts as not numeric |
| Math.SignCornerCases | src/funtions/math.rs:43-136 | 0 is neither positive nor negative; 1/-2 is positive; no arguments qualify for `pos?` and `num?` |
| Math.SymbolsResolveThroughData | src/funtions/math.rs:46-57 | an unbound symbol does not qualify; a symbol bound to a literal is judged as that literal |
| Logic.Pairwise | src/funtions/logic.rs:5-33 | `windows(2).all` holds exactly when every adjacent pair holds, with a failed evaluation replaced by Nil on the left and `Bool(true)` on the right |
| Logic.ShortComparisons | src/funtions/logic.rs:5-33 | with fewer than two arguments every comparison is true |
| Logic.CompareAll | src/funtions/logic.rs:5-33 | `eq`, `ge`, `greater`, `le`, `lesser` as a Bool; stated by `Pairwise`, `ShortComparisons`, `FailedEvaluationIsNotEqualToItself` and `BelowChainIsOrdered` |
| Logic.FailedEvaluationIsNotEqualToItself | src/funtions/logic.rs:5-9 | an argument whose evaluation fails is not `=` to itself |
| Logic.BelowChainIsOrdered | src/funtions/logic.rs:29-33 | when `<` holds over arguments that evaluate, every earlier value is below every later one |
| Logic.TruthItem | src/funtions/logic.rs:35-87 | one argument of `true?`/`false?` never yields an error |
| Logic.Nested | src/funtions/logic.rs:41-45 | the nested call on an evaluated value never yields an error |
| Logic.AllCount | src/funtions/logic.rs:36-59 | the `all` over the arguments never yields an error |
| Logic.TruthTest | src/funtions/logic.rs:35-87 | `true?` and `false?` answer a Bool or abort; they never fail |
| Logic.TruthOnLiterals | src/funtions/logic.rs:35-87 | over literals, `true?` holds exactly when no argument is `false` or Nil, and `false?` exactly when every argument is `false` or Nil |
| Logic.LiteralsAreDecided | src/funtions/logic.rs:35-87 | on one literal, `true?` and `false?` are each other's negation |
| Logic.SymbolsResolveThroughData | src/funtions/logic.rs:35-87 | an unbound symbol makes `true?` true and `false?` false; a symbol bound to a Bool or Nil counts as that value |
| Logic.SingleArgument | src/funtions/logic.rs:35-87 | with one argument, the test is that argument's verdict |
| Logic.FailedListIsNeither | src/funtions/logic.rs:51-83 | a list whose evaluation fails makes both `true?` and `false?` false |
| Collections.SetMembership | src/funtions/collections.rs:100-110 | a set holds exactly the values of the arguments whose evaluation succeeds |
| Collections.InsertOneMorePair | src/funtions/collections.rs:112-138 | one more pair: the earlier pairs' error wins, then the key's, then the value's; otherwise the pair overwrites |
| Collections.LastPairWins | src/funtions/collections.rs:112-138 | in a built map the last pair's key maps to the last pair's value, so a later duplicate key overwrites |
| Collections.OddCountFails | src/funtions/collections.rs:112-138 | an odd number of arguments is the "must be formed by pairs" error of the map kind |
| Collections.FirstErrorWins | src/funtions/collections.rs:112-138 | the first argument whose evaluation fails is the map's error |
| Collections.MakeVector | src/funtions/collections.rs:96-98 | `vector`: the arguments, unevaluated and in order; `Evaluator.ArgumentsUnevaluated` states what `(vector …)` prints |
| Collections.MakeSet | src/funtions/collections.rs:100-110 | `hash-set` and `sorted-set`; stated by `SetMembership` |
| Collections.InsertEvaluatedPairs | src/funtions/collections.rs:115-117 | the pair-by-pair evaluation; stated by `InsertOneMorePair` and `FirstErrorWins` |
| Collections.MakeMap | src/funtions/collections.rs:112-138 | `hash-map` and `sorted-map`; stated by `LastPairWins`, `OddCountFails` and `FirstErrorWins` |
| Evaluator.PrintValue | src/definitions.rs:92-157 | `print` as it runs, pushing text onto a string in loops, gives the result of the `print` function |
| Evaluator.PushItems | src/definitions.rs:122-130 | the vector loop gives `print`'s result, stopping at the first element whose print fails |
| Evaluator.PushSet | src/definitions.rs:104-121 | the set loop, over the members in the host's iteration order, gives `print`'s result, stopping at the first member whose print fails; `Evaluator.PrintedSet` states that text member by member |
| Evaluator.PushMap | src/definitions.rs:131-152 | the map loop (key, space, value, space) gives `print`'s result, stopping at the first key or value whose print fails; `Evaluator.PrintedMap` states that text entry by entry |
| Evaluator.Print | src/definitions.rs:92-157 | `print`; stated by `PrintedVector`, `PrintedSet`, `PrintedMap`, `FirstFailingElement`, `KeywordPrintsTwoColons`, `RationalNotReduced`, `StringNotEscaped` and, for lists, the `eval_list` lemmas |
| Evaluator.EvalList | src/funtions/mod.rs:9-25 | `eval_list`; stated by `EmptyListText`, `UnknownHead`, `NonSymbolHead`, `ArgumentsUnevaluated` and `BuiltinErrorUnchanged` |
| Evaluator.Call | src/lib.rs:34-64 | the call through `STD` to the builtin a name is bound to; stated by `MeaningOfLifeIgnoresArguments`, `ArgumentsUnevaluated`, `FirstKeywordErrorWins` and the lemmas of each builtin |
| Evaluator.GetFrom | src/funtions/collections.rs:7-15 | `get`'s arguments; stated by `GetNeedsTwoArguments`, `GetArguments` and `GetArgumentsWithDefault` |
| Evaluator.GetIn | src/funtions/collections.rs:16-92 | `get` on a collection; stated by the `GetFrom…` lemmas and `GetNeedsACollection` |
| Evaluator.StrOf | src/funtions/std.rs:3-7 | `str`; stated by `StrOfAppend` and `FailedPrintAddsNothing` |
| Evaluator.Keywordize | src/funtions/std.rs:16-43 | a successful `keyword` gives one keyword per argument, and the one at each place is what converting the argument at that place gives |
| Evaluator.KeywordOf | src/funtions/std.rs:19-41 | a successful conversion gives a keyword; the arms are stated by `KeywordOfText`, `KeywordOfNumber`, `KeywordOfCharOrBool`, `KeywordOfNilOrCollection`, `KeywordOfUnevaluable` and `KeywordOfList` |
| Evaluator.SeqItemsSpaced | src/definitions.rs:122-130 | the elements' texts, each followed by one space |
| Evaluator.PrintedVector | src/definitions.rs:122-130 | a vector prints as `[`, each element's text followed by one space, then `]` |
| Evaluator.SetItemsAreSeqItems | src/definitions.rs:104-121 | when every value of the order is a member, the set loop prints each of them, in that order, like the vector loop |
| Evaluator.PrintedSet | src/definitions.rs:104-121 | when the host's order lists every member once, a set prints as `#{`, each member's text followed by one space, then `}`: as many texts as members, each member once, in that order |
| Evaluator.MapItemsSpaced | src/definitions.rs:131-152 | when every value of the order is a key, the map loop prints key text, space, value text, space for each, in that order |
| Evaluator.PrintedMap | src/definitions.rs:131-152 | when the host's order lists every key once, a map prints as `{`, then key text, space, value text, space for each entry, then `}`: each entry once, in that order |
| Evaluator.FirstFailingElement | src/definitions.rs:122-130 | the first element whose print fails decides the print of the whole vector |
| Evaluator.KeywordPrintsTwoColons | src/definitions.rs:95 | for every `k`, the keyword the reader stores as `:k` prints as `::k` |
| Evaluator.RationalNotReduced | src/definitions.rs:101 | every rational prints as its numerator's text, `/`, its denominator's text, as stored; two rationals print alike exactly when numerators and denominators are equal, so nothing is reduced (`2/4` and `1/2` differ) |
| Evaluator.StringNotEscaped | src/definitions.rs:96 | every string prints as a quote, the string itself unchanged (its quotes and backslashes not escaped), and a quote |
| Evaluator.EmptyListText | src/funtions/mod.rs:10-12 | the empty list evaluates to `()` |
| Evaluator.UnknownHead | src/funtions/mod.rs:16-19 | a head symbol missing from `STD` is `UnknownSymbol(name)` |
| Evaluator.NonSymbolHead | src/funtions/mod.rs:21-23 | any other head is `CantEval` with the head's text, or an empty text when printing it fails |
| Evaluator.ArgumentsUnevaluated | src/funtions/mod.rs:17-18 | the builtin receives the remaining elements as they are and in order: `(vector …)` prints as the vector of them |
| Evaluator.MeaningOfLifeIgnoresArguments | src/funtions/mod.rs:27-29 | `(meaning-of-life? …)` prints `42` whatever its arguments |
| Evaluator.BuiltinErrorUnchanged | src/funtions/mod.rs:18-20 | a builtin's error comes back unchanged and nothing is printed |
| Evaluator.GetNeedsTwoArguments | src/funtions/collections.rs:8-14 | a missing collection or index is reported before anything else |
| Evaluator.GetArguments | src/funtions/collections.rs:15 | the first argument is the collection, the second the index, and there is no default |
| Evaluator.GetArgumentsWithDefault | src/funtions/collections.rs:15 | a third argument is the default |
| Evaluator.GetFromSet | src/funtions/collections.rs:16-33 | on a set, the index itself when it is a member, else Nil |
| Evaluator.GetFromSetOrDefault | src/funtions/collections.rs:16-33 | on a set, the index itself when it is a member, else the default |
| Evaluator.GetFromMap | src/funtions/collections.rs:34-51 | on a map, the value at the key, else Nil |
| Evaluator.GetFromMapOrDefault | src/funtions/collections.rs:34-51 | on a map, the value at the key, else the default |
| Evaluator.GetFromVector | src/funtions/collections.rs:70-86 | an index in range gives the element; past the end, the default or `Reason("Index out of bounds")`; a negative index fails even with a default |
| Evaluator.GetFromVectorByOtherIndex | src/funtions/collections.rs:60-87 | a symbol index reads the data store, unbound being `CantEval(sym)`; any other non-integer index is out of bounds, default or not |
| Evaluator.GetNeedsACollection | src/funtions/collections.rs:89-91 | a first argument that is not a collection, a string included, is refused |
| Evaluator.StrOfAppend | src/funtions/std.rs:3-7 | `str` of two argument lists is the concatenation of their texts |
| Evaluator.FailedPrintAddsNothing | src/funtions/std.rs:5 | an argument whose print fails adds nothing to `str` |
| Evaluator.KeywordsKept | src/funtions/std.rs:21 | keywords are kept as they are |
| Evaluator.KeywordizeIdempotent | src/funtions/std.rs:16-43 | applying `keyword` to its own result changes nothing |
| Evaluator.KeywordOfText | src/funtions/std.rs:20-22 | a symbol or string `s` becomes `:s` |
| Evaluator.KeywordOfNumber | src/funtions/std.rs:26-27 | an integer becomes `:` and its text; a rational becomes `:n/d` |
| Evaluator.KeywordOfNilOrCollection | src/funtions/std.rs:28-42 | Nil becomes `:nil`; a collection is `Thrown("Can't keywordize a collection")` |
| Evaluator.KeywordizeElementwise | src/funtions/std.rs:16-43 | `keyword` succeeds with a list of keywords exactly when it has one per argument and each argument converts to the keyword at its place |
| Evaluator.KeywordOfCharOrBool | src/funtions/std.rs:23-24 | a character `c` becomes `:c`; a boolean becomes `:true` or `:false` |
| Evaluator.KeywordOfUnevaluable | src/funtions/std.rs:29-30 | a list whose evaluation fails gives that error |
| Evaluator.KeywordOfList | src/funtions/std.rs:29-39 | a list is evaluated and its value converted: a value that converts gives that keyword, one that fails to convert gives `CantEval` with the list's printed text (`None` when that print fails) |
| Evaluator.KeywordizeStopsAt | src/funtions/std.rs:41-43 | the first argument that cannot be converted stops the conversion with its error |
| Evaluator.FirstKeywordErrorWins | src/funtions/std.rs:16-43 | that first error is the result of the whole `keyword` call |

## Left out

- Floating point: a double is an opaque payload. Its arithmetic, its text and `f64::from_str` come from the host (`FloatOps`). The float-literal grammar is modelled as an optional sign, then digits with at most one `.`. Exponents, `inf` and `NaN` texts cannot arise from a number run that starts with a digit or `-`.
- The `Hash` impl and the derived `Debug` text (src/definitions.rs:33-73) are Rust formatting machinery. The ordering lemmas use the `Debug` text of integers, booleans and Nil. The host supplies the rest.
- The iteration orders of `HashSet`/`HashMap` (hash order) and `BTreeSet`/`BTreeMap` come from the host as functions from a set to a sequence. The `Host` record does not force them to list each member once; `Evaluator.PrintedSet` and `Evaluator.PrintedMap` take that as a precondition (`Runtime.Enumerates`) and then state the printed text member by member. That a `BTreeSet` iterates in ascending `Ord` order (by display text) is not stated.
- PushSet: its contract is equality with `print` under whatever order the host gives; that each member is printed exactly once holds only for an order that lists every member once, and is stated by `Evaluator.PrintedSet`.
- PushMap: likewise, that each entry is printed exactly once is stated by `Evaluator.PrintedMap`, for an order that lists every key once.
- The `DATA` and `LOCAL` mutexes: the data store is an immutable map. A nested data-store lookup while the lock is held (a symbol bound to a symbol, in `pos?`/`neg?`/`num?`; a symbol reached by the nested call that `true?`/`false?` make for a bound value) re-locks a mutex the thread already holds. Rust's `Mutex` deadlocks or panics on that, and the model aborts with `Relock`.
- Unbounded recursion: evaluation nesting is bounded by a fuel argument. Running out is `Aborted(OutOfFuel)`, a case the source does not have.
- `DefinitionTypes::eval` and the builtins whose bodies are not shown (`*`, `/`, `nil?`, `throw`, `assoc`, `dissoc`, `contains?`) are host functions.
- The list path of `pos?`, `neg?` and `num?` (evaluate the list, then re-parse the printed text as an integer, float or ratio) is a host function.
- `println!` writes to standard output. The model computes the text and returns Nil, and does not model the write. The debug `println!` in `is_negative` is left out as well.
- `src/main.rs` (an interactive loop over standard input) and `src/funtions.rs` (dead code that does not compile against the crate) are not part of this model.
- `char::is_numeric` is restricted to ASCII digits. `char::is_whitespace` is the Unicode White_Space list.
- `to_usize` is the 64-bit conversion: an index is in range below 2^64.
- The `todo!()` arms of `+` and `-` for a symbol or list on the left (src/definitions.rs:167, 286, 311, 423): `Values.Add` and `Values.Sub` exclude them by precondition. `sub` then reaches them as `Aborted(Panic)`; `plus` never does, because its accumulator is always a number or a value `+` returns.
- `Grammar.ReadChar`: the error branch of `read_char` for a missing character (src/parser.rs:186-189) cannot be reached after `NextIndex` succeeds, so it is not modelled.
- `Grammar.ReadBoolOrNil`: the branch where the three characters read are not `nil` (src/parser.rs:250-253) cannot be reached once the guard holds, so it is not modelled.
- The position the character iterator is left at after a failed read is not stated. No caller reads it: `read` returns the error.
- `Grammar.ReadSet`: the reader inserts into a `HashSet` as it goes, which the model states as the set of the elements read. The insertion order is not observable.
- Comparisons and printing of collections that hold floats depend on the host's float text.
