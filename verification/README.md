# A Dafny model of a small Scheme interpreter

This project models the core of a small C++ interpreter for a subset of
Scheme. The interpreter reads one form from a line of text, checks the form
with a handful of ad-hoc checkers, evaluates it, and prints the answer.
Five parts of the code are covered.

- **Lexers.** `Tokenizer::Next` in `basic/tokenizer.cpp` (module `Lexer`)
  and the earlier version in `tokenizer/tokenizer.cpp` (module
  `EarlyLexer`). A tokenizer is a record of the text, the read position,
  the end flag, the current token and the token history that
  `GetAllTokens` returns.
- **Readers.** `Read` and `ReadList` in `basic/parser.cpp` (module
  `Reader`) and the earlier ones in `parser/parser.cpp` (module
  `EarlyReader`). This includes the bracket counts and the check a
  finished list runs after a quote.
- **Objects.** `Number`, `Symbol`, `Cell` and their `Serialize` (module
  `Values`), plus the 27 operation classes of `basic/object.h`. Each
  operation is a reducer: an immutable state and a `Step` function that
  models one call of `Apply` (modules `Reducers` and `ReducerLaws`).
- **The registry.** The table of `basic/scheme.h` that maps the 27 names
  to fresh operation objects (module `Registry`).
- **The interpreter.** In `basic/scheme.cpp`:
  - `AstToVector` (`Values.Flatten`);
  - the five checkers (`Checkers`);
  - `Evaluate`, `AndEvaluate` and `OrEvaluate` (`Evaluator`);
  - `SerializeQuote` and `Serialize` (`Printer`);
  - `Run` (`Interpreter`).

Errors are values of `Common.Result`. `SyntaxError` and `RuntimeError` are
the interpreter's two exception types. `OutOfRange` is the exception
`std::stoi` throws for a literal outside `int`. Steps whose C++ behaviour is
undefined answer `Undefined`: signed overflow of the `int64_t` a `Number`
holds, division by zero, and the `back()` of an empty string. A loop of the
source that never ends answers `Diverges`.

Behaviours of the code the model keeps:

- **Flat evaluation.** Evaluation works on the flattened leaves of the
  form. The first leaf names an operation, and every later leaf, operation
  names included, is fed to that one object. So `(+ (- 5 3) 1)` adds 5, 3
  and 1 (`Evaluator.EvaluateSumOfLeaves`).
- **A quoted number.** A number prints with a trailing blank, so `'5`
  prints `5 )` (`Interpreter.RunQuotedNumber`).
- **Signed literals in the earlier lexer.** It consumes the character right
  after the digits of a signed literal (`EarlyLexer.AgreesWithLaterLexer`).
- **Quotes in the earlier reader.** It reads the body of a quote as a list
  body. So `'5` at the end of the input is a syntax error there, while the
  later reader reads `(quote 5)` (`EarlyReader.QuotedNumberDiffers`).
- **The earlier reader's lexer.** It calls `GetAllTokens`, `GetStream` and
  the `is_init` flag, which the earlier tokenizer does not have. It is
  therefore modelled on the lexer of `basic/tokenizer.cpp`.
- **Where the description and the code differ, the model follows the
  code.** Descriptions of the interpreter give `car`, `cdr`, `list-ref`
  and `list-tail` their usual Scheme meaning. In the code they see the
  flattened leaves of the whole form, not evaluated arguments. For
  instance, `(car (quote (1 2)))` does not answer `1`, and an index past
  the end of a `list` call is not rejected the way an index into a quoted
  list is.

## Model

| member | source | states |
|---|---|---|
| Common.TruncDiv | basic/object.h:355-377 | the quotient of C++ `/`: the remainder is zero or has the dividend's sign, and it is smaller than the divisor in magnitude |
| Common.TruncDivShrinks | basic/object.h:355-377 | dividing by a non-zero integer never increases the magnitude |
| Common.IntToString | basic/object.h:36-38 | `std::to_string` of an integer is non-empty text, and it starts with `-` exactly for negatives |
| Common.NatToString | basic/object.h:36-38 | the decimal text of a natural is all digits with no leading zero |
| Common.DecimalRoundTrip | basic/tokenizer.cpp:50-63 | reading the printed decimal text of a natural back as the lexer does gives the natural |
| Common.IntToStringInjective | basic/object.h:36-38 | distinct numbers print to distinct texts |
| Tokens.EqualIgnoresOnlyInit | basic/tokenizer.cpp:88-99 | token equality compares literals by value only, symbols by name, and every other kind by kind |
| Tokens.EqualIsEquivalence | basic/tokenizer.cpp:88-99 | token equality is reflexive, symmetric and transitive |
| Tokens.CountAppend | basic/parser.cpp:20-24 | counting tokens of one kind distributes over concatenation |
| Tokens.CountBounds | basic/parser.cpp:7-12 | a count is zero exactly when no token equals the one counted, and equals the length exactly when all of them do |
| Values.Chain | basic/object.h:644-665 | the chain built for a list is a nil-terminated list, null exactly when empty, whose first slot is the first element |
| Values.ElementsOfChain | basic/object.h:542-570 | walking the second slots of a built chain gives back exactly the elements it was built from |
| Values.ChainOfElements | basic/object.h:542-570 | every object `list?` accepts is the chain of its own elements |
| Values.Serialize | basic/object.h:36-60 | a number is written in decimal with a trailing blank, and a symbol as its name |
| Values.SerializeCells | basic/object.h:96-106 | a pair with both slots set is written in brackets, and the cell with two null slots as `(())` |
| Values.SerializeNumberInjective | basic/object.h:36-38 | the written text of a number determines the number |
| Values.ListOnto | basic/parser.cpp:149 | the right-nested list of the elements ending in a given last slot; with a null last slot it is the chain `list` builds |
| Values.Flatten | basic/scheme.cpp:74-101 | the leaves are empty exactly for null, an atom flattens to itself, and a cell among the leaves is either the empty cell or the payload right after `quote` |
| Values.FlattenChainOfAtoms | basic/scheme.cpp:74-101 | a list of atoms other than `quote` flattens to those atoms in order |
| Registry.Fresh | basic/scheme.h:16-45 | a registered name gives a freshly initialised object of the class registered under that name |
| Registry.NamesRegistered | basic/scheme.h:16-45 | every one of the 27 names of the table is registered |
| Registry.OnlyNamesRegistered | basic/scheme.h:16-45 | a name is registered only if it is one of the 27 names of the table |
| Registry.FreshInjective | basic/scheme.h:16-45 | two different registered names give different objects |
| Registry.NotOperators | basic/scheme.h:16-45 | `define`, `#t` and `#f` are not operations |
| Lexer.SkipSpace | basic/tokenizer.cpp:19-22 | the first position at or after the start that is not whitespace; everything skipped is whitespace |
| Lexer.DigitsEnd | basic/tokenizer.cpp:50-58 | the end of the maximal digit run |
| Lexer.SymbolEnd | basic/tokenizer.cpp:68-77 | the end of the maximal run of symbol characters |
| Lexer.CharacterClasses | basic/tokenizer.cpp:2-5 | every character a symbol starts with also continues one; digits, `-`, `!` and `?` continue a symbol without starting one; brackets, the quote, the dot, `+` and whitespace do neither |
| Lexer.TrailRejects | basic/tokenizer.cpp:59-62 | a number or a name may be followed at once by a bracket, a dot, a sign or whitespace, but not by a quote, a double quote or a semicolon |
| Lexer.ScanAt | basic/tokenizer.cpp:27-85 | at the end of input there is no token; otherwise a token that consumes at least one character and is initialised, or a syntax or range error |
| Lexer.Next | basic/tokenizer.cpp:18-86 | a valid tokenizer stays valid and never moves back; at the end it is unchanged; trailing whitespace only sets the end flag; a new token is appended to the history |
| Lexer.Init | basic/tokenizer.cpp:7-10 | the constructor lexes at most one token, and it reaches the end exactly when the text is all whitespace |
| Lexer.NextDecreases | basic/tokenizer.cpp:18-86 | each successful call before the end strictly reduces the work left, so readers built on it terminate |
| Lexer.SkipSpaceIrrelevant | basic/tokenizer.cpp:19-22 | skipping whitespace before a call does not change its outcome |
| Lexer.NextPunctuation | basic/tokenizer.cpp:27-67 | `(`, `)`, `'` and `.` give exactly one bracket, quote or dot token and consume one character |
| Lexer.NextSignedLiteral | basic/tokenizer.cpp:31-49 | a sign followed by digits is one signed literal ending after the digits, or an out-of-range error outside `int` |
| Lexer.NextLoneSign | basic/tokenizer.cpp:31-49 | a sign not followed by a digit is the one-character symbol |
| Lexer.NextUnsignedLiteral | basic/tokenizer.cpp:50-63 | a digit run is one literal; a forbidden character after it is a syntax error, and a value outside `int` a range error |
| Lexer.NextSymbol | basic/tokenizer.cpp:68-82 | a symbol is the maximal run of symbol characters; a forbidden character after it is a syntax error |
| Lexer.NextRejectsOther | basic/tokenizer.cpp:83-85 | any other leading character is a syntax error |
| EarlyLexer.Next | tokenizer/tokenizer.cpp:19-80 | validity is kept, the position never moves back, and a call that does not advance has reached the end |
| EarlyLexer.Init | tokenizer/tokenizer.cpp:7-11 | the constructor lexes one token from the start; blank text reaches the end at once |
| EarlyLexer.NextAtEnd | tokenizer/tokenizer.cpp:20-27 | only whitespace left sets the end flag and leaves the token as it was |
| EarlyLexer.NextSignedLiteral | tokenizer/tokenizer.cpp:32-48 | a signed literal also swallows the character after its digits, and reaching the end of input sets the end flag |
| EarlyLexer.NextLoneSign | tokenizer/tokenizer.cpp:32-48 | a sign without digits is the one-character symbol |
| EarlyLexer.NextUnsignedLiteral | tokenizer/tokenizer.cpp:49-60 | a digit run is one literal whatever follows it |
| EarlyLexer.NextSymbol | tokenizer/tokenizer.cpp:65-77 | a symbol is the maximal run of symbol characters whatever follows it |
| EarlyLexer.NextSingleCharacters | tokenizer/tokenizer.cpp:28-79 | brackets, quote and dot give one token each; any other leading character is a syntax error |
| EarlyLexer.AgreesWithLaterLexer | tokenizer/tokenizer.cpp:32-48 | where the later lexer reads a token, the earlier one reads the same token, one character further on exactly after a signed literal that is not at the end |
| Reader.FirstQuote | basic/parser.cpp:30-37 | the index of the first quote token |
| Reader.ScanQuoted | basic/parser.cpp:38-50 | the loop over the tokens after the first quote fails only with a runtime error, or with undefined behaviour when it reads past the tokens |
| Reader.QuoteCheck | basic/parser.cpp:25-51 | tokens without a quote always pass the check after a finished list |
| Reader.Read | basic/parser.cpp:6-94 | reading moves the tokenizer forward over the same text and fails only with the reader's, the lexer's or undefined-behaviour errors |
| Reader.ReadOpened | basic/parser.cpp:15-53 | the branch for an opening bracket moves the tokenizer forward and never diverges |
| Reader.ReadList | basic/parser.cpp:96-151 | a list body moves the tokenizer forward and never diverges; its shape is stated by `Reader.ListBody`, `Reader.ListAtEnd`, `Reader.ListDot` and `Reader.ReadsLeaves` |
| Reader.Parse | basic/scheme.cpp:476-479 | building the tokenizer and reading one form leaves a valid tokenizer over the input |
| Reader.ParseBlank | basic/parser.cpp:54-57 | blank input is a syntax error: the current token is the uninitialised constant |
| Reader.ExcessCloseRejected | basic/parser.cpp:7-12 | with more closing than opening brackets in the history, reading any form is a syntax error |
| Reader.ReadLiteral | basic/parser.cpp:54-58 | an initialised literal reads as the number it holds; the uninitialised one is a syntax error |
| Reader.ReadClose | basic/parser.cpp:85-91 | a closing bracket reads as null, unless a literal follows, which is answered as a number and stays current |
| Reader.ReadQuote | basic/parser.cpp:71-79 | a quote reads as `(quote form)` around the one form after it, and a final quote is a syntax error |
| Reader.ListDot | basic/parser.cpp:118-147 | a dot in a list body is refused with fewer than two tokens before it, before `)`, or before a literal not followed by `)`; otherwise the form after it is the tail |
| Reader.ListBody | basic/parser.cpp:148-150 | a list body that starts with neither `)` nor `.` is the cell of the form read first and the rest of the body, and an error in either part is the error of the body |
| Reader.ListAtEnd | basic/parser.cpp:98-100 | a list body that meets the end of input before its `)` is a syntax error |
| Reader.ReadLeaf | basic/parser.cpp:54-84 | once the bracket guard is met, a literal or a symbol reads as the leaf it holds and the tokenizer moves one token on |
| Reader.ReadsLeaves | basic/parser.cpp:96-151 | a run of literals and symbols up to `)` reads as the right-nested list of those leaves in order, stopping just past the `)`; with no literal after the `)` it is the nil-terminated chain |
| Reader.ListAtEndBalanced | basic/parser.cpp:19-24 | a list accepted at the end of input has as many closing brackets as opening ones in the history |
| Reader.ListAtEndQuoteChecked | basic/parser.cpp:25-51 | a list accepted at the end of input has passed the check after a quote |
| EarlyReader.Read | parser/parser.cpp:4-52 | reading moves the tokenizer forward and fails only with a syntax or range error; its branches are stated by `EarlyReader.ReadLeaf`, `EarlyReader.ReadDot`, `EarlyReader.ReadQuote` and `EarlyReader.ReadClose` |
| EarlyReader.ReadDot | parser/parser.cpp:24-35 | a dot before `)` is a syntax error, and so is a dot followed by a final dot; otherwise the dot is skipped and the next form is read |
| EarlyReader.ReadClose | parser/parser.cpp:44-50 | a `)` reads as the number of a literal right after it, otherwise as null, stopping at the token after it, whatever the bracket counts |
| EarlyReader.ReadOpened | parser/parser.cpp:7-18 | the branch for an opening bracket moves the tokenizer forward |
| EarlyReader.ReadList | parser/parser.cpp:54-106 | a list body moves the tokenizer forward and fails only with a syntax or range error; its shape is stated by `EarlyReader.ListBody`, `EarlyReader.ListAtEnd`, `EarlyReader.ListDot` and `EarlyReader.ReadsLeaves` |
| EarlyReader.AgreesOnLeaves | parser/parser.cpp:19-51 | on numbers, symbols and closing brackets the two readers agree unless there are excess closing brackets |
| EarlyReader.ExcessCloseOnlyLaterRejects | basic/parser.cpp:7-12 | with more closing than opening brackets in the history, the later reader refuses a literal with a syntax error while the earlier reader reads it as its number |
| EarlyReader.QuotedNumberDiffers | parser/parser.cpp:36-38 | a quoted number at the end of input is a syntax error for the earlier reader and `(quote n)` for the later one |
| EarlyReader.ListAtEndBalanced | parser/parser.cpp:11-16 | a list accepted at the end of input has balanced brackets |
| EarlyReader.ListDot | parser/parser.cpp:76-102 | a dot is refused before `)` or before a literal not followed by `)`, with no check on the tokens before it; otherwise the form after it is the tail |
| EarlyReader.ReadQuote | parser/parser.cpp:36-38 | a quote reads as the cell of `quote` and the list body read after it, and an error in that body is the error of the quote |
| EarlyReader.ListBody | parser/parser.cpp:103-105 | a list body that starts with neither `)` nor `.` is the cell of the form read first and the rest of the body, and an error in either part is the error of the body |
| EarlyReader.ListAtEnd | parser/parser.cpp:56-58 | a list body that meets the end of input before its `)` is a syntax error |
| EarlyReader.ReadLeaf | parser/parser.cpp:19-43 | a literal or a symbol reads as the leaf it holds, with no bracket guard |
| EarlyReader.ReadsLeaves | parser/parser.cpp:54-106 | a run of literals and symbols up to `)` reads as the right-nested list of those leaves in order, stopping just past the `)`, whatever the bracket counts |
| Reducers.Normalize | basic/object.h:744-755 | normalising always yields a nil-terminated list |
| Reducers.Suffixes | basic/object.h:756-776 | every suffix of a list's spine, from the list itself down to null, one more than its elements |
| Reducers.Step | basic/object.h:113-806 | a call keeps the operation's class, and only `car`, `cdr`, `list-ref` and `list-tail` raise runtime errors |
| Reducers.ArithStep | basic/object.h:122-449 | the arithmetic operations keep their class and fail only through undefined behaviour |
| Reducers.CompareStep | basic/object.h:162-330 | a comparison keeps its relation and fails only through undefined behaviour |
| Reducers.RefStep | basic/object.h:666-717 | `list-ref` stays `list-ref` and raises only runtime errors or undefined behaviour |
| Reducers.TailStep | basic/object.h:719-806 | `list-tail` stays `list-tail` and raises only runtime errors or undefined behaviour |
| Reducers.Feed | basic/scheme.cpp:12-51 | feeding leaves one by one keeps the operation's class; feeding nothing changes nothing |
| ReducerLaws.AddSums | basic/object.h:122-138 | `+` keeps and answers the running sum of the numbers fed to it, passing over other objects |
| ReducerLaws.AddDefined | basic/object.h:122-138 | `+` is defined when the magnitudes fit in `int64_t` |
| ReducerLaws.MultiplyMultiplies | basic/object.h:379-395 | `*` keeps and answers the running product of the numbers fed to it |
| ReducerLaws.SubtractStarted | basic/object.h:331-353 | once started, `-` subtracts every later number |
| ReducerLaws.SubtractDifference | basic/object.h:331-353 | from its initial state `-` answers the first number minus the sum of the others |
| ReducerLaws.SubtractStartedDefined | basic/object.h:331-353 | a started `-` is defined when the magnitudes fit in `int64_t` |
| ReducerLaws.SubtractDefined | basic/object.h:331-353 | `-` is defined when the magnitudes fit in `int64_t` |
| ReducerLaws.DivideShrinks | basic/object.h:355-377 | once started, the running quotient of `/` never grows in magnitude |
| ReducerLaws.DivideByZero | basic/object.h:355-377 | dividing by zero is undefined |
| ReducerLaws.DivideQuotient | basic/object.h:355-377 | once started, `/` holds and returns the total divided in turn by each later number, against the `Quotient` reference fold |
| ReducerLaws.DivideFromStart | basic/object.h:355-377 | from its initial state, `/` answers the first number divided in turn by each later number |
| ReducerLaws.DivideDefined | basic/object.h:355-377 | once started on a total inside `int64_t`, `/` is defined exactly when no later number is zero |
| ReducerLaws.DivideZeroAnywhere | basic/object.h:355-377 | once started, a zero among the later numbers makes `/` undefined |
| ReducerLaws.MaximumIsMaximum | basic/object.h:397-413 | `max` answers a bound above every number fed, which is one of them or the start value |
| ReducerLaws.MinimumIsMinimum | basic/object.h:415-431 | `min` answers a bound below every number fed, which is one of them or the start value |
| ReducerLaws.AbsoluteOfLatest | basic/object.h:433-449 | `abs` keeps the magnitude of the latest number only |
| ReducerLaws.CompareChains | basic/object.h:196-228 | a started comparison answers whether every neighbouring pair, from the stored number on, stands in its relation |
| ReducerLaws.BrokenStaysFalse | basic/object.h:162-194 | once a comparison has answered `#f` it answers `#f` to everything after |
| ReducerLaws.CompareFromStart | basic/object.h:162-330 | from its initial state each of the five comparisons answers whether the whole run is chained by its relation |
| ReducerLaws.TestsAcceptFirst | basic/object.h:140-160 | `number?`, `boolean?` and `null?` answer `#t` to their first operand, whatever it is |
| ReducerLaws.TestsJudgeOperand | basic/object.h:140-590 | after the first call, `number?`, `boolean?`, `null?` and `pair?` answer whether the operand at hand has their type, null included |
| ReducerLaws.NotTable | basic/object.h:474-495 | `not` answers `#t` exactly for null and `#f` |
| ReducerLaws.NotInvolution | basic/object.h:474-495 | `not` of `not` of a boolean is that boolean |
| ReducerLaws.ConsCarCdr | basic/object.h:592-642 | `cons` of two objects builds their pair, and `car` and `cdr` give each of them back |
| ReducerLaws.CarCdrRejectNull | basic/object.h:614-642 | `car` and `cdr` of null raise a runtime error |
| ReducerLaws.CarCdrOfAtom | basic/object.h:614-642 | on a number or symbol `car` answers the operand and `cdr` answers null |
| ReducerLaws.ConsFirstOperand | basic/object.h:592-612 | `cons` passes over null unchanged and answers its first object unchanged |
| ReducerLaws.IndexingIgnoresAtoms | basic/object.h:666-734 | `list-ref` and `list-tail` answer null to an operand that is not a cell, keeping what they gathered |
| ReducerLaws.ListBuildsList | basic/object.h:644-665 | `list` answers after every call the nil-terminated list of all objects so far, whose elements are those objects and which `list?` accepts |
| ReducerLaws.ListRefOfList | basic/object.h:666-717 | `list-ref` of a list of atoms ending in an in-range index answers the element at that index |
| ReducerLaws.ListRefPastEnd | basic/object.h:666-717 | an index past the elements is a runtime error |
| ReducerLaws.NormalizeKeepsLists | basic/object.h:744-755 | normalising leaves a list as it is |
| ReducerLaws.SuffixesOfChain | basic/object.h:756-776 | the k-th suffix of a built list is the list of its elements from k on |
| ReducerLaws.ListTailOfList | basic/object.h:719-806 | `list-tail` of a list of atoms ending in an in-range index answers the list from that index on |
| ReducerLaws.TailOfList | basic/object.h:719-806 | `list-tail` on one list records its suffixes and leaves and answers the suffix at the index |
| ReducerLaws.ListTailPastEnd | basic/object.h:719-806 | an index past the elements is a runtime error |
| Checkers.IntegerScan | basic/scheme.cpp:224-265 | the token loop fails only with a runtime error, and never once both a `?` name and a quote have been seen |
| Checkers.IntegerTypeChecker | basic/scheme.cpp:224-265 | fails only with a runtime error; no tokens always pass |
| Checkers.IntegerTypeCheckerUnqualified | basic/scheme.cpp:224-265 | without quotes and `?` names, passes exactly when every symbol is an operation, there is no dot, and no `()` |
| Checkers.IntegerScanAfterQuote | basic/scheme.cpp:224-265 | after a quote, with no `?` names, passes exactly when every later symbol is an operation |
| Checkers.BinaryOperationsChecker | basic/scheme.cpp:267-287 | passes exactly when every `/` and `-` is followed at once by two numbers |
| Checkers.UnaryOperationChecker | basic/scheme.cpp:289-314 | passes exactly when each of `max`, `min`, `abs`, `not`, `car`, `cdr` is followed at once by a number or a symbol |
| Checkers.RequiresOnlyOneArgumentChecker | basic/scheme.cpp:316-348 | passes exactly when no one-argument operation has two arguments in a row, or, except `not`, a final `quote` right after it |
| Checkers.ListsAreNotSelfEvaluating | basic/scheme.cpp:350-369 | fails exactly when there is an opening bracket and neither an operation name nor a quote |
| Evaluator.Evaluate | basic/scheme.cpp:3-73 | a lone number or non-operation symbol is its own value; no leaves, a lone cell, or a first leaf that names no operation followed by more leaves is a runtime error |
| Evaluator.EvaluateSum | basic/scheme.cpp:3-73 | `(+ n1 .. nk)` is the sum when the magnitudes fit in `int64_t` |
| Evaluator.EvaluateSumOfLeaves | basic/scheme.cpp:3-73 | every leaf after `+`, nested operation names included, goes to the one `+` object, which adds only the numbers |
| Evaluator.EvaluateDifference | basic/scheme.cpp:3-73 | `(- n1 .. nk)` is the first number minus the sum of the rest when the magnitudes fit |
| Evaluator.EvaluateQuotient | basic/scheme.cpp:3-73 | `(/ n1 .. nk)` answers `n1` divided in turn by the others; with `n1` inside `int64_t` it is defined exactly when no later number is zero, and any zero divisor is undefined |
| Evaluator.EvaluateProduct | basic/scheme.cpp:3-73 | `(* n1 .. nk)`, when defined, is the product |
| Evaluator.RelationName | basic/scheme.h:19-24 | each relation's name is registered and gives a fresh comparison with that relation |
| Evaluator.EvaluateCompare | basic/scheme.cpp:3-73 | the five comparisons answer whether the run is chained by their relation |
| Evaluator.EvaluateMaximum | basic/scheme.cpp:3-73 | `max` of numbers is at least each of them and is one of them or the `int64_t` minimum |
| Evaluator.EvaluateMinimum | basic/scheme.cpp:3-73 | `min` of numbers is at most each of them and is one of them or the `int64_t` maximum |
| Evaluator.EvaluateList | basic/scheme.cpp:3-73 | `(list x1 .. xk)` is the nil-terminated list of those leaves |
| Evaluator.EvaluateCons | basic/scheme.cpp:3-73 | `(cons a b)` is the pair of `a` and `b` |
| Evaluator.Junction | basic/scheme.cpp:371-421 | the shared loop diverges only where a cell stands at the start of a test, and past the leaves answers the latest result |
| Evaluator.OperandsEnd | basic/scheme.cpp:380-387 | the operands gathered after an operation name are exactly the leaves up to the next operation name or the end |
| Evaluator.AndEvaluate | basic/scheme.cpp:371-421 | `and` diverges only on a cell among its leaves and fails otherwise only as evaluation does |
| Evaluator.OrEvaluate | basic/scheme.cpp:423-473 | `or` diverges only on a cell among its leaves and fails otherwise only as evaluation does |
| Evaluator.JunctionOfAtoms | basic/scheme.cpp:371-473 | over plain atoms the loop answers the stop symbol when present, otherwise the last atom |
| Evaluator.AndOfAtoms | basic/scheme.cpp:371-421 | `and` of plain atoms is `#f` when `#f` is among them, `#t` when empty, otherwise the last atom |
| Evaluator.OrOfAtoms | basic/scheme.cpp:423-473 | `or` of plain atoms is `#t` when `#t` is among them, `#f` when empty, otherwise the last atom |
| Evaluator.AndShortCircuits | basic/scheme.cpp:371-421 | a first test that evaluates to `#f` decides `and` whatever follows |
| Evaluator.OrShortCircuits | basic/scheme.cpp:423-473 | a first test that evaluates to `#t` decides `or` whatever follows |
| Printer.SerializeQuote | basic/scheme.cpp:103-138 | the text written before, less at most one trailing blank, stays a prefix of the result, and writing is undefined only for a cell written with nothing before it |
| Printer.SerializeQuoteMayDropBlank | basic/scheme.cpp:120-126 | that bound is exact: a last element that writes nothing lets the closing bracket replace a blank already written |
| Printer.SerializeQuoteKeepsFirst | basic/scheme.cpp:103-138 | once non-blank text has been written, writing succeeds and keeps its first character |
| Printer.QuoteChainOfAtoms | basic/scheme.cpp:103-138 | a list of atoms is written as the atoms separated by single blanks, then `)` |
| Printer.QuoteDottedNumbers | basic/scheme.cpp:103-138 | a pair of numbers is written as `a . b)` |
| Printer.PrintSymbol | basic/scheme.cpp:174-193 | the text so far is kept and the name appended, with `(` in place of the empty text when it opens a longer output, then a blank, or `)` when it ends a longer output, or nothing when it is alone |
| Printer.PrintNumberText | basic/scheme.cpp:194-218 | the text so far is kept and the decimal appended, with `(` before the first of a run of several numbers, a blank after every number of such a run but the last, and `)` after a last number that follows a number |
| Printer.PrintLeafKeeps | basic/scheme.cpp:171-219 | printing one leaf only appends to the text: any blank it drops is one it wrote itself |
| Printer.PrintLeavesKeep | basic/scheme.cpp:170-221 | the loop over the leaves only appends to the text written before it |
| Printer.SerializeResult | basic/scheme.cpp:140-222 | fails only through undefined behaviour, an empty result prints `()`, and a form starting with a number always prints |
| Printer.PrintLoneAtom | basic/scheme.cpp:170-221 | a lone number prints in decimal without its blank, and a lone symbol as its name |
| Printer.PrintQuotedList | basic/scheme.cpp:142-164 | a quoted list of atoms prints as the atoms in brackets |
| Printer.PrintQuotedNumber | basic/scheme.cpp:142-164 | a quoted number prints with its trailing blank and a `)` |
| Printer.PrintNumbers | basic/scheme.cpp:194-219 | a run of two or more numbers prints as them, blank-separated, in brackets |
| Interpreter.Guard | basic/scheme.cpp:483-503 | passing means every leaf checker and the bracket check passed, a lone symbol is a boolean or an operation, and the token checker passed unless one of five operations heads the form |
| Interpreter.ListCheckIsListTest | basic/object.h:542-570 | the list test `Run` makes is the answer of a fresh `list?` object: true for null and for `quote`, false for a number |
| Interpreter.EvaluateForm | basic/scheme.cpp:504-523 | evaluation diverges only on a cell among the leaves |
| Interpreter.Print | basic/scheme.cpp:524-545 | an improper pair prints in brackets, and so does a list answered by a form headed by a symbol other than `quote` |
| Interpreter.OpenedQuote | basic/scheme.cpp:530-532 | the printed text of a list starts with `(` |
| Interpreter.RunTree | basic/scheme.cpp:481-545 | an answer is printed only after the checks pass and evaluation succeeds |
| Interpreter.Run | basic/scheme.cpp:475-545 | a syntax error comes only from reading, and an answer only from input that reads |
| Interpreter.CallTokensAccepted | basic/scheme.cpp:224-369 | the tokens of a call of an operation without `?` on integers pass both token checkers |
| Interpreter.QuotedTokensAccepted | basic/scheme.cpp:224-369 | the tokens of a quoted list of integers pass both token checkers |
| Interpreter.CallFlattens | basic/scheme.cpp:74-101 | a call on integers flattens to its name and its numbers |
| Interpreter.GuardOfNumbers | basic/scheme.cpp:483-503 | a call on integers with the argument count each checker demands passes the checks |
| Interpreter.PrintAtom | basic/scheme.cpp:524-545 | an atom answered by a form headed by a symbol prints as written |
| Interpreter.RunSum | basic/scheme.cpp:475-545 | `(+ n1 .. nk)` prints the sum |
| Interpreter.RunDifference | basic/scheme.cpp:475-545 | `(- n1 n2 .. nk)` prints the first number minus the rest |
| Interpreter.RunProduct | basic/scheme.cpp:475-545 | `(* n1 .. nk)` prints the product whenever it prints |
| Interpreter.RunCompare | basic/scheme.cpp:475-545 | the five comparisons print `#t` exactly when the numbers are chained by the relation |
| Interpreter.PrintList | basic/scheme.cpp:536-543 | a list of numbers prints them in brackets |
| Interpreter.RunList | basic/scheme.cpp:475-545 | `(list n1 .. nk)` prints the numbers in brackets |
| Interpreter.RunCons | basic/scheme.cpp:475-545 | `(cons a b)` prints the dotted pair |
| Interpreter.PrintPair | basic/scheme.cpp:524-533 | a pair of numbers prints in dotted notation |
| Interpreter.RunMissingOperand | basic/scheme.cpp:267-287 | `(- n)` and `(/ n)` are runtime errors |
| Interpreter.RunUnknownSymbol | basic/scheme.cpp:483-489 | a lone symbol that is neither a boolean nor an operation is a runtime error |
| Interpreter.RunLoneNumber | basic/scheme.cpp:475-545 | a lone number prints in decimal |
| Interpreter.RunQuotedList | basic/scheme.cpp:475-545 | `'(n1 .. nk)` prints the list |
| Interpreter.RunQuotedNumber | basic/scheme.cpp:475-545 | `'n` prints the number, a blank and a `)` |
| Interpreter.QuoteEvaluates | basic/object.h:113-120 | `(quote x)` evaluates to `x` |
| Interpreter.RunAnd | basic/scheme.cpp:475-545 | `(and ..)` over plain atoms prints `#f` when `#f` is among them, `#t` when empty, otherwise the last atom |
| Interpreter.RunOr | basic/scheme.cpp:475-545 | `(or ..)` over plain atoms prints `#t` when `#t` is among them, `#f` when empty, otherwise the last atom |
| Interpreter.JunctionFormGuarded | basic/scheme.cpp:483-503 | an `and` or `or` form over plain atoms flattens to its leaves and passes the checks |
| Interpreter.CheckedNamesAreOperators | basic/scheme.cpp:267-348 | every name the leaf checkers look for, and `quote`, is a registered operation |

## Left out

- Streams and I/O. The input is a string; `peek` and `get` are reads at a
  position. `char` is taken to hold characters only, so no byte of the
  input reads as `EOF`.
- The character classes are those of the "C" locale.
- Exception messages. Only the kind of error is kept.
- The `brackets_cnt` counter of both readers is never read and is not
  modelled. Neither are the two peek loops of `ReadList`: they do not
  advance the stream and only adjust that counter.
- `DefineOperation`, `Object::Execute` and the classes' constructors and
  accessors are outside the model. `define` is not in the table.
- Undefined behaviour is the error `Undefined`, not a crash or an
  arbitrary value. A loop of `AndEvaluate` or `OrEvaluate` that never
  advances is the error `Diverges`.
- The order in which C++ evaluates the two arguments of
  `new Cell(Read(t), ReadList(t))` is unspecified. The model reads the
  first argument first.
- The earlier tokenizer declares a default-constructed `Token token_` whose
  first alternative has no default constructor. The model starts it with
  the same uninitialised constant as the later tokenizer.
- Evaluator.EvaluateProduct: states only that a defined product is the
  product of the numbers. It gives no bound under which `*` is free of
  overflow.
- Interpreter.RunProduct: states only that a printed product is the
  product of the numbers, for the same reason.
- Reader.ReadList: its own contract states only progress and the error
  kinds. The shape of the list read is stated by the lemmas named in its
  row, and for a whole list only for flat lists of literals and symbols
  (`Reader.ReadsLeaves`), not for nested lists.
- EarlyReader.ReadList: the same, with `EarlyReader.ReadsLeaves`.
- EarlyReader.Read: its own contract states only progress and the error
  kinds. Each branch is stated by the lemmas named in its row; the opening
  bracket is stated through `EarlyReader.ReadList` and so for flat lists
  only.
- Reader.Read: the error cases are bounded only by kind; which inputs
  fail is stated by `Reader.ListAtEndBalanced`,
  `Reader.ListAtEndQuoteChecked` and `Reader.ParseBlank` rather than by an
  exact characterisation.
- Interpreter.Run: relates the answer to reading and to the stages of
  `RunTree`; whole-program outputs are stated per form shape by the `Run…`
  lemmas on the tree that was read, not on input text.
