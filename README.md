# fn: tokeniser, parser and block runtime

fn is a small toy language written in Ruby. Running a program has three stages:

- The **tokeniser** (tokeniser.rb) turns the program text into a list of tokens. At each position it tries the regular expressions of `GRAMMAR` in order and takes the first one that matches. Spaces and comments are matched and then popped straight off the list. The tokeniser fails when no rule matches the rest of the input.
- The **parser** (parser.rb) is a recursive-descent parser over that token array. It shifts tokens off the front of the array in place. It builds expression structs: numbers, strings, identifiers, two-argument calls (infix operators nest to the right), function prototypes, assignments (`AssignmentExpr`, built only after an `:eq` token), `use` and `import`.
- The **runtime** (runtime.rb) evaluates the expressions inside a `Block`, which is a hash from names to values:
  - The root block holds the four arithmetic lambdas of `GLOBALS`.
  - `a = e` binds a name once; rebinding a name whose value is truthy raises an error.
  - `m.x` evaluates `x` in the block `m`.
  - A call runs a lambda. A function defined in fn runs its body in a new block, which is a merged copy of the defining block's hash plus the parameters. The result is the body's last value, or else the block itself.
  - `import m` merges `m`'s hash into the current one.

The project is split into six files:

- `wrappers.dfy` holds `Option` (Ruby `nil` or a value) and `Result` (a value, or the error Ruby raises).
- `lexing.dfy` has two layers:
  - the pure tokeniser: `Tokenise`, one matcher per `GRAMMAR` rule and the first-match search;
  - the imperative `process` loop and the memoising `Tokeniser` class, both proved to compute `Tokenise`.
- `syntax.dfy` holds the parser as functions from the remaining tokens to an expression plus the tokens left over.
- `parser.dfy` holds the `Parser` class. Its methods shift `tokens` in place, and each is proved equal to the function of the same name in `Syntax`.
- `runtime.dfy` holds the evaluator as functions over a store of hashes:
  - a store (a `Heap`) is a sequence of tables;
  - a block is the index of its table, so two Blocks sharing one Ruby hash share one index;
  - each nested evaluation costs one unit of `fuel`; running out is the error `OutOfFuel`.
- `blocks.dfy` holds the `Store` class. Its methods update the tables in place, as the `Block` methods do, and each is proved equal to the matching `Runtime` function.

Two behaviours of the code shape the model:

- An identifier is looked up only in the block's own hash. There is no chain of enclosing blocks. A function body sees its defining block's bindings because its new hash is a merged copy of them.
- Every `.type` read on a missing token is the error `NoToken`. As a result, a program whose last expression is a value with no `;` after it fails to parse, because `parse_value` looks at the token after the operand.

## Model

| member | source | states |
|---|---|---|
| Lexing.Span | tokeniser.rb:34-36 | A character-class run never extends past the input. |
| Lexing.SpanIsLongest | tokeniser.rb:34-36 | Every character of the run is in the class, and the character after it is not: the greedy `+` of the identifier and space rules. |
| Lexing.Alternatives | tokeniser.rb:17 | It captures one of the alternatives, and that alternative is a prefix of the input; when nothing matches, no alternative is a prefix. |
| Lexing.MatchRule | tokeniser.rb:1-37 | Every `GRAMMAR` rule that matches consumes at least one character and no more than the input holds. |
| Lexing.FirstMatch | tokeniser.rb:79-90 | The rule type and match chosen by `GRAMMAR.find`; FindRule states which rule that is, and TokeniseStep states what the step emits. |
| Lexing.FindRule | tokeniser.rb:79-90 | `GRAMMAR.find`: the rule returned is the first that matches; every earlier rule fails; no result means that no rule matches. |
| Lexing.FindRuleAt | tokeniser.rb:79-90 | If rule i matches and all earlier rules fail, the search returns rule i with its match. |
| Lexing.TokeniseStep | tokeniser.rb:79-90 | When rule i is the first match, tokenising is that rule's tokens followed by the tokens of the rest of the input. |
| Lexing.PrependTwice | tokeniser.rb:82 | Adding two batches of tokens in front is the same as adding their concatenation. |
| Lexing.FindFirstRule | tokeniser.rb:79-90 | The loop over the rules returns exactly the first-match search. |
| Lexing.StepKeepsProgress | tokeniser.rb:76-97 | One round of `process` keeps the invariant that the tokens so far plus the tokens of the rest equal the tokens of the whole input. |
| Lexing.PrependNothing | tokeniser.rb:74 | Starting from an empty token list changes nothing. |
| Lexing.PrependDone | tokeniser.rb:92 | When the input is used up, the result is the tokens collected. |
| Lexing.StuckFails | tokeniser.rb:94-96 | When no rule matches non-empty input, tokenising fails and reports that remainder. |
| Lexing.PushPop | tokeniser.rb:39-43 | Pushing a space or comment token and then popping it leaves the list as it was; other tokens stay pushed. |
| Lexing.Tokenise | tokeniser.rb:73-100 | The reference definition of `process`. TokensWellFormed states the shape of its tokens, FailureIsStuckRemainder and StuckInputFails state when and with what it fails, and Process is proved to compute it. |
| Lexing.Process | tokeniser.rb:73-100 | The imperative loop returns exactly `Tokenise(input)`, including its failure. |
| Lexing.Tokeniser.constructor | tokeniser.rb:64-67 | It stores the input, and nothing is memoised yet. |
| Lexing.Tokeniser.Tokens | tokeniser.rb:69-71 | It returns `Tokenise` of the initial input, and memoises the token list when there is one. |
| Lexing.TokeniseText | tokeniser.rb:60-62 | `Tokeniser.tokenise` equals `Tokenise`. |
| Lexing.SpanPrefix | tokeniser.rb:34 | Every character of the run is in its class. |
| Lexing.MatchWellFormed | tokeniser.rb:1-37 | Every token a rule emits has that rule's shape. |
| Lexing.TokensWellFormed | tokeniser.rb:73-100 | Every token in a successful result is well formed. There is no space, comment or `:eq` token. Punctuation and keywords carry no text. A string's text has no quote, and a number's text is non-empty digits. An identifier's text is a non-empty run of identifier characters. An operator's or boolean's text is one of its words. |
| Lexing.FailureIsStuckRemainder | tokeniser.rb:92-96 | A failure reports a non-empty suffix of the input at which no rule matches. |
| Lexing.StuckInputFails | tokeniser.rb:92-96 | Empty input gives no tokens. Non-empty input that no rule matches is a failure that reports it. |
| Lexing.UseBeatsIdentifier | tokeniser.rb:11-34 | Input that starts with `use` gives the keyword, before the identifier rule gets a turn. |
| Lexing.ImportBeatsIdentifier | tokeniser.rb:12-34 | Input that starts with `import` gives the keyword. |
| Lexing.EarlierRulesFail | tokeniser.rb:79-90 | Rules that cannot start with the first character all fail. |
| Lexing.AlternativesSkip | tokeniser.rb:17 | Alternatives that are not prefixes do not affect the match. |
| Lexing.WordOperatorBeatsIdentifier | tokeniser.rb:17-34 | `eq`, `or` and `and` at the start of the input are infix operators, even inside a longer word. |
| Lexing.WordOperatorMatches | tokeniser.rb:17 | The operator rule captures the word operator. |
| Lexing.FindRuleAfter | tokeniser.rb:79 | Rules that all fail can be skipped in the search. |
| Lexing.PrefixHead | tokeniser.rb:11-29 | A literal that matches starts with the input's first character. |
| Lexing.MatchStartsWith | tokeniser.rb:1-37 | A rule matches only when the input's first character can start it. |
| Lexing.EarlierRuleFails | tokeniser.rb:31-34 | An identifier character that starts no keyword or operator word fails every rule before the identifier rule. |
| Lexing.InfixStartsWordOrSymbol | tokeniser.rb:17 | An operator match starts with `+ - * / . =` or an operator word. |
| Lexing.IdentifierRunMatches | tokeniser.rb:34 | The identifier rule captures the longest run of identifier characters. |
| Lexing.IdentifierRuleApplies | tokeniser.rb:31-34 | Such a run, with no keyword in front, tokenises as one identifier of that text. |
| Lexing.StringTokenExcludesQuotes | tokeniser.rb:27 | A quoted string gives a string token whose text is the part between the quotes. |
| Lexing.NumberTokenIsDigitRun | tokeniser.rb:28 | A maximal digit run gives one number token of those digits. |
| Lexing.SpanOfRun | tokeniser.rb:34-36 | A run in the class that ends at a character outside it is exactly the span. |
| Lexing.TokeniseAfter | tokeniser.rb:79-90 | Tokenising is the first match's tokens followed by the tokens of what remains. |
| Lexing.UserIsUseThenIdentifier | tokeniser.rb:11-34 | `user` tokenises as the keyword `use` followed by the identifier `r`, because the keyword rule has no word boundary. |
| Lexing.DigitEndsIdentifier | tokeniser.rb:28-34 | `x1` is the identifier `x` followed by the number `1`. |
| Syntax.CurrentType | parser.rb:28-30 | There is a type exactly when a token is left. |
| Syntax.Shift | parser.rb:24-26 | `shift_token!` as `Array#shift`, which leaves no tokens as none; FirstTokenDiscarded states its use in `parse`. |
| Syntax.SkipEndStatement | parser.rb:87-89 | A leading `;` is dropped, exactly that one token; any other first token, or none, leaves the tokens as they are. |
| Syntax.ParsePrimary | parser.rb:56-92 | On success it consumes at least one token and leaves a suffix. |
| Syntax.ParseStatement | parser.rb:57-85 | On success it consumes at least one token and leaves a suffix. |
| Syntax.ParseIdentifierStatement | parser.rb:58-71 | On success it consumes at least one token and leaves a suffix. |
| Syntax.ParseValue | parser.rb:116-144 | On success it consumes at least one token and leaves a suffix. |
| Syntax.ParseOperand | parser.rb:117-132 | On success it consumes at least one token and leaves a suffix. |
| Syntax.ParseFunctionCall | parser.rb:146-156 | On success it consumes at least one token and leaves a suffix. |
| Syntax.ParseParameterList | parser.rb:158-184 | On success it consumes at least one token and leaves a suffix. |
| Syntax.ParseParameters | parser.rb:164-182 | On success it consumes at least one token and leaves a suffix. |
| Syntax.ParseParameter | parser.rb:186-193 | On success it consumes at least one token and leaves a suffix. |
| Syntax.ParseAssignment | parser.rb:195-210 | On success it consumes at least one token and leaves a suffix. |
| Syntax.ParseDefinition | parser.rb:212-219 | What it leaves is a suffix of its input. It need not be shorter, because a token that starts no definition yields nil and is not consumed. |
| Syntax.ParseFunctionDefinition | parser.rb:221-225 | On success it consumes at least one token and leaves a suffix. |
| Syntax.ParseArgumentList | parser.rb:227-257 | On success it consumes at least one token and leaves a suffix. |
| Syntax.ParseArguments | parser.rb:235-255 | On success it consumes at least one token and leaves a suffix. |
| Syntax.ParseFunctionBody | parser.rb:259-277 | On success it consumes at least one token and leaves a suffix. |
| Syntax.ParseBody | parser.rb:267-276 | On success it consumes at least one token and leaves a suffix. |
| Syntax.ParseLiteral | parser.rb:279-288 | On success it consumes at least one token and leaves a suffix. |
| Syntax.ParseBrackets | parser.rb:290-315 | On success it consumes at least one token and leaves a suffix. |
| Syntax.ParseUse | parser.rb:329-336 | On success it consumes at least one token and leaves a suffix. |
| Syntax.ParseImport | parser.rb:338-345 | On success it consumes at least one token and leaves a suffix. |
| Syntax.Parse | parser.rb:40-54 | The reference definition of `parse`; FirstTokenDiscarded and PrimariesBound state what it yields, and Parser.Parse is proved to compute it. |
| Syntax.ParsePrimaries | parser.rb:47-53 | The `until file_end?` loop of `parse`; PrimariesBound states that earlier primaries stay in front, in order, and that a parse adds no more primaries than there are tokens. |
| Syntax.FirstTokenDiscarded | parser.rb:40-54 | `parse` drops the first token unread; no tokens, or one token, give no primaries. |
| Syntax.PrimariesBound | parser.rb:47-53 | The primaries parsed earlier stay in front, in order. A successful parse adds no more primaries than there are tokens. |
| Syntax.OperandOfLiteral | parser.rb:121-131 | A number or string token is a literal operand. |
| Syntax.OperandOfIdentifier | parser.rb:119-125 | An identifier not followed by `(` is an identifier operand. |
| Syntax.ValueIsOperand | parser.rb:134-143 | An operand followed by anything but an infix operator is the whole value. |
| Syntax.ValueWithInfix | parser.rb:134-141 | An operand followed by an operator is a call of that operator on the operand and the value that follows. |
| Syntax.StatementIsValue | parser.rb:57-73 | An identifier not followed by `:eq` or `(`, a number or a string starts a value. |
| Syntax.IdentifierDispatch | parser.rb:58-71 | A statement that starts with an identifier is decided by the look-ahead at the next token. |
| Syntax.IdentifierStatementIsValue | parser.rb:58-71 | An identifier followed by neither `:eq` nor `(` starts a value. |
| Syntax.LiteralStatementIsValue | parser.rb:72-73 | A number or a string starts a value. |
| Syntax.LiteralStatement | parser.rb:72-91 | A literal followed by `;` is a primary in its own right. |
| Syntax.IdentifierStatement | parser.rb:58-91 | An identifier followed by `;` is an identifier primary. |
| Syntax.ValueAtEndFails | parser.rb:134-135 | A value on the last token fails: the operator look-ahead has no token to read. |
| Syntax.UnrecognisedTokenSkipped | parser.rb:80-85 | A token that cannot start an expression is skipped and yields nil. |
| Syntax.InfixNestsRight | parser.rb:134-141 | `a op b op c` parses as `a op (b op c)`. |
| Syntax.SubtractionChain | parser.rb:134-141 | `1 - 2 - 3;` parses as `-(1, -(2, 3))`, that is `1 - (2 - 3)`. |
| Syntax.AssignmentIsInfixCall | parser.rb:134-141 | `x = 5;` parses as a call of `=` on `x` and `5`, not as an assignment struct. |
| Syntax.IdentifierExprs | parser.rb:241 | One identifier expression per name, in order. |
| Syntax.ListTokensHead | parser.rb:235-251 | A listed name is followed by `,` and the rest, or by `)` when it is last. |
| Syntax.ArgumentsRoundTrip | parser.rb:227-257 | Parsing a definition's argument list returns exactly the names it was made from, with or without a trailing comma, and leaves the rest. |
| Syntax.IdentifierParameter | parser.rb:186-193 | An identifier followed by `,` or `)` is a parameter on its own. |
| Syntax.ParametersStep | parser.rb:164-182 | After one parameter, the loop continues at `,`, stops at `)`, and is an error otherwise. |
| Syntax.ParametersRoundTrip | parser.rb:158-184 | The same tokens used as a call's parameters give one identifier expression per name and leave the rest. |
| Syntax.ArgumentsOnlyIdentifiers | parser.rb:235-255 | A successful argument list contains only identifiers, commas and `)`. |
| Syntax.ArgumentMustBeIdentifier | parser.rb:237-239 | Any other token in an argument list is an error. |
| Syntax.ParameterNeedsSeparator | parser.rb:174-178 | A parameter followed by anything but `,` or `)` is an error. |
| Syntax.EmptyCall | parser.rb:146-184 | `f()` is a prototype holding the callee and no parameters. |
| Syntax.CallIsPrototype | parser.rb:146-156 | For any tokens after the identifier, `f(...)` gives a prototype whose callee is `f` and whose parameters are what the parameter list yields. It is never a call. If the parameter list fails, the error is passed on unchanged. |
| Syntax.BodyNeedsClose | parser.rb:267-273 | A body that has no `}` left is an error. |
| Syntax.EmptyBody | parser.rb:259-277 | `{}` is an empty body. |
| Syntax.EmptyBrackets | parser.rb:296-301 | `()` is nil. |
| Syntax.BracketsNeedClose | parser.rb:303-314 | `( e )` is `e`; a missing `)` at the end is an error. |
| Syntax.UseNeedsIdentifier | parser.rb:329-336 | `use` succeeds if and only if an identifier follows; its text names the node. |
| Syntax.ImportNeedsIdentifier | parser.rb:338-345 | `import` succeeds if and only if an identifier follows; its text names the node. |
| Syntax.AssignmentBranchUnreachable | parser.rb:64-66 | The tokeniser's output has no `:eq` token. TokenisedIdentifierNeverAssigns draws the consequence for the parser. |
| Syntax.TokenisedIdentifierNeverAssigns | parser.rb:64-71 | On any suffix of the tokeniser's output, an identifier statement followed by another token parses as a call when `(` follows and as a value otherwise. The assignment branch is never taken. |
| Parsing.Parser.constructor | parser.rb:20-22 | The parser starts with the given tokens. |
| Parsing.Parser.ShiftToken | parser.rb:24-26 | Drops the first token, if there is one. |
| Parsing.Parser.ShiftTokenValue | parser.rb:347-351 | Returns the current token's text and drops that token. |
| Parsing.Parser.Parse | parser.rb:40-54 | Returns `Syntax.Parse` of the starting tokens; on success the primaries are the result and no tokens are left. |
| Parsing.Parser.ParsePrimary | parser.rb:56-92 | Its result and the tokens it leaves are those of `Syntax.ParsePrimary`. |
| Parsing.Parser.ParseValue | parser.rb:116-144 | Its result and the tokens it leaves are those of `Syntax.ParseValue`. |
| Parsing.Parser.ParseFunctionCall | parser.rb:146-156 | Its result and the tokens it leaves are those of `Syntax.ParseFunctionCall`. |
| Parsing.Parser.ParseParameterList | parser.rb:158-184 | Its result and the tokens it leaves are those of `Syntax.ParseParameterList`. |
| Parsing.Parser.ParseParameter | parser.rb:186-193 | Its result and the tokens it leaves are those of `Syntax.ParseParameter`. |
| Parsing.Parser.ParseAssignment | parser.rb:195-210 | Its result and the tokens it leaves are those of `Syntax.ParseAssignment`. |
| Parsing.Parser.ParseDefinition | parser.rb:212-219 | Its result and the tokens it leaves are those of `Syntax.ParseDefinition`. |
| Parsing.Parser.ParseFunctionDefinition | parser.rb:221-225 | Its result and the tokens it leaves are those of `Syntax.ParseFunctionDefinition`. |
| Parsing.Parser.ParseArgumentList | parser.rb:227-257 | Its result and the tokens it leaves are those of `Syntax.ParseArgumentList`. |
| Parsing.Parser.ParseFunctionBody | parser.rb:259-277 | Its result and the tokens it leaves are those of `Syntax.ParseFunctionBody`. |
| Parsing.Parser.ParseLiteral | parser.rb:279-323 | Its result and the tokens it leaves are those of `Syntax.ParseLiteral`. |
| Parsing.Parser.ParseBrackets | parser.rb:290-315 | Its result and the tokens it leaves are those of `Syntax.ParseBrackets`. |
| Parsing.Parser.ParseUse | parser.rb:329-336 | Its result and the tokens it leaves are those of `Syntax.ParseUse`. |
| Parsing.Parser.ParseImport | parser.rb:338-345 | Its result and the tokens it leaves are those of `Syntax.ParseImport`. |
| Parsing.ParseTokens | parser.rb:16-18 | `Parser.parse(tokens)` equals `Syntax.Parse(tokens)`. |
| Runtime.Store | runtime.rb:31 | Replacing a table keeps the number of tables. |
| Runtime.Assign | runtime.rb:29-32 | The reference definition of `assign`; AssignBindsUnboundName states when it succeeds and what it binds. |
| Runtime.FloorDiv | runtime.rb:7 | Ruby's `Integer#/`; FloorDivRoundsDown characterises it by its remainder, and FloorDivExamples gives negative-operand cases. |
| Runtime.ApplyBuiltin | runtime.rb:4-11 | The four GLOBALS lambdas on integers; BuiltinCall and RootArithmetic state it as the result of calling them, with division by zero an error. |
| Runtime.Bind | runtime.rb:106-109 | The `each_with_index.reduce` parameter table; BindPositional states which argument each name gets. |
| Runtime.CallFrame | runtime.rb:111 | The defining table merged with the parameter table; CallFrameLookup states what each name resolves to in it. |
| Runtime.ToI | runtime.rb:56 | `String#to_i` on the digits of a number token; ToIReadsDecimal states that it reads the decimal number. |
| Runtime.NameOf | runtime.rb:81 | `expr.args[0].name`; AssignmentNeedsName states that a nameless left side is an error. |
| Runtime.Evaluate | runtime.rb:53-73 | Evaluation only adds tables; it never removes one. |
| Runtime.Import | runtime.rb:68-69 | Import keeps the number of tables. |
| Runtime.EvaluateFunctionCall | runtime.rb:75-94 | It only adds tables. |
| Runtime.EvaluateAssignment | runtime.rb:80-81 | It only adds tables. |
| Runtime.EvaluateDereference | runtime.rb:83-85 | It only adds tables. |
| Runtime.EvaluateCall | runtime.rb:86-92 | It only adds tables. |
| Runtime.CallValue | runtime.rb:92-116 | It only adds tables. |
| Runtime.EvaluateReturnLast | runtime.rb:34-43 | It only adds tables. |
| Runtime.EvaluateReturnBlock | runtime.rb:45-51 | It only adds tables. |
| Runtime.EvaluateAll | runtime.rb:36-38 | One value per expression. |
| Runtime.LastIndexOf | runtime.rb:106-109 | The last position of a name in the argument list. |
| Runtime.DigitValue | runtime.rb:56 | `to_i` of one digit is that digit's value. |
| Runtime.AssignBindsUnboundName | runtime.rb:29-32 | Assignment succeeds if and only if the name's current value is nil. On success it binds the name and changes no other key and no other table. Otherwise the error names the identifier. |
| Runtime.AssignOnlyOnce | runtime.rb:29-32 | A name bound to a truthy value cannot be bound again. |
| Runtime.AssignmentYieldsValue | runtime.rb:29-81 | `x = e` evaluates `e`, binds `x` to it in the current table and yields the value. |
| Runtime.AssignmentNeedsName | runtime.rb:81 | Assigning to anything but a named expression is an error. |
| Runtime.RebindingFails | runtime.rb:29-32 | `x = 5; x = 6` in the root block fails, naming `x`. |
| Runtime.ReturnLastYieldsFinalValue | runtime.rb:34-43 | The result is the last expression's value if truthy, else the block; with no expressions it is the running value if truthy, else the block. The store is the one left by evaluating the expressions in order. |
| Runtime.ReturnLastIsTruthy | runtime.rb:40-42 | The result of a body is never nil; an empty body yields the block itself. |
| Runtime.ReturnBlockYieldsBlock | runtime.rb:45-51 | A block's result is the block, with the store left by evaluating its expressions in order. |
| Runtime.BindPositional | runtime.rb:106-109 | The parameter table binds exactly the argument names. A repeated name takes the argument at its last position. |
| Runtime.CallFrameLookup | runtime.rb:99-111 | In a call's table the parameters shadow the defining block's bindings. A third or later parameter is nil. Any other name resolves as in the defining table. |
| Runtime.ClosureSeesCallTimeBindings | runtime.rb:111 | A function body reads a non-parameter name from its defining block's table as it is when the function is called. |
| Runtime.ParameterYieldsArgument | runtime.rb:106-114 | A body that names a parameter returns the matching argument. |
| Runtime.RootIsLocal | runtime.rb:4-11 | The root store meets the locality invariant: every closure it holds has a body without a dereference (it holds only built-ins). |
| Runtime.LocalChangesOwnTable | runtime.rb:53-94 | Take an expression with no dereference `.` anywhere in it, including inside its function definitions and blocks, evaluated in a store that meets the invariant. Assignments, imports, blocks, built-in calls and calls of user functions are all allowed. Evaluating it leaves every table except the current one unchanged; the store may grow, but it does not grow when the expression calls nothing but `=`. The store still meets the invariant, and the value is local. |
| Runtime.LocalListChangesOwnTable | runtime.rb:34-38 | The same holds for a list of such expressions run in order, and every value is local. |
| Runtime.LocalCallChangesOwnTable | runtime.rb:86-92 | A call of anything but `=` and `.` with such arguments changes only the current table, through its arguments. |
| Runtime.LocalCallValue | runtime.rb:92-116 | Applying a local built-in or function to local values leaves every existing table unchanged, the caller's included: the body runs in its own new frame. |
| Runtime.CallKeepsExistingTables | runtime.rb:96-116 | Calling a function whose body has no dereference, in a store that meets the invariant, leaves every existing table unchanged, the defining one included. It adds at least the call's own frame, and exactly that one when the body calls nothing but `=`. So `(x, y) { z = x + y; z }` assigns `z` only in its frame. |
| Runtime.DotEvaluatesInTarget | runtime.rb:83-85 | `m.x` evaluates `m`; if that is a block, it evaluates `x` in that block's table, else it is an error. |
| Runtime.DotReadsTargetTable | runtime.rb:59-85 | `m.x` reads `x` from `m`'s table. |
| Runtime.DotAssignsInTarget | runtime.rb:83-85 | Assigning through `m.(x = e)` binds `x` in `m`'s table. When `m` is a block other than the current one, and `e` is local in a store that meets the invariant, the current table is left unchanged. |
| Runtime.ImportOverwrites | runtime.rb:68-69 | `import m` succeeds if and only if `m` is a block. On success `m`'s bindings overwrite the current ones, other keys and tables are unchanged, and the result is the merged hash. |
| Runtime.BlockSharesTable | runtime.rb:118-123 | A block expression runs in the current hash itself, not a copy. |
| Runtime.BlockAssignmentVisible | runtime.rb:118-123 | An assignment inside a block expression is visible in the enclosing block. |
| Runtime.FloorDivRoundsDown | runtime.rb:7 | Integer `/` rounds toward negative infinity: the remainder has the divisor's sign and is smaller in magnitude. |
| Runtime.FloorDivExamples | runtime.rb:7 | -7/2 = -4, 7/-2 = -4, -7/-2 = 3. |
| Runtime.BuiltinCall | runtime.rb:86-92 | A call to a built-in evaluates the left argument, then the right one, and applies the lambda. |
| Runtime.RootArithmetic | runtime.rb:86-92 | In the root block `9 - 4` is 5, and `7 / 0` is a division error. |
| Runtime.OnlyLambdasAreCallable | runtime.rb:90-109 | Calling anything that is not a lambda is an error. So is calling a prototype built from `f(...)`, whose first field is not an argument list. |
| Runtime.DecimalString | runtime.rb:56 | The digits of a number are a non-empty digit string. |
| Runtime.LeadingNumberAppend | runtime.rb:56 | Appending a digit multiplies by ten and adds the digit. |
| Runtime.ToIReadsDecimal | runtime.rb:56 | `to_i` of a number's decimal digits is that number. |
| Blocks.Store.constructor | runtime.rb:13-15 | The root store has one table, `GLOBALS`. |
| Blocks.Store.Assign | runtime.rb:29-32 | It yields the value and the store of `Runtime.Assign`, or its error with the store unchanged. |
| Blocks.Store.Import | runtime.rb:68-69 | It computes `Runtime.Import` in place; on an error the store is unchanged. |
| Blocks.Store.Evaluate | runtime.rb:53-73 | Its result and the store it leaves are those of `Runtime.Evaluate`. |
| Blocks.Store.EvaluateFunctionCall | runtime.rb:75-94 | Its result and store are those of `Runtime.EvaluateFunctionCall`. |
| Blocks.Store.EvaluateAssignment | runtime.rb:80-81 | Its result and store are those of `Runtime.EvaluateAssignment`. |
| Blocks.Store.EvaluateDereference | runtime.rb:83-85 | Its result and store are those of `Runtime.EvaluateDereference`. |
| Blocks.Store.EvaluateCall | runtime.rb:86-92 | Its result and store are those of `Runtime.EvaluateCall`. |
| Blocks.Store.Call | runtime.rb:92-116 | It appends the call's table and runs the body. Its result and store are those of `Runtime.CallValue`. |
| Blocks.Store.EvaluateReturnLast | runtime.rb:34-43 | The loop with its running value computes `Runtime.EvaluateReturnLast`. |
| Blocks.Store.EvaluateReturnBlock | runtime.rb:45-51 | The loop computes `Runtime.EvaluateReturnBlock`. |

## Left out

- LocalChangesOwnTable, LocalListChangesOwnTable and CallKeepsExistingTables leave out expressions containing a dereference `.`. A dereference evaluates in another block's table, so `m.(x = e)` does change `m`'s table; DotAssignsInTarget states that case.
- The `HTTPServer` entry (runtime.rb:16-24) is not modelled. It is test scaffolding whose lambdas print or do nothing. The root table is the four arithmetic built-ins.
- The root table is a fresh copy of `GLOBALS`. In Ruby the root Block shares, and `merge!` mutates, the `GLOBALS` constant itself, so all root blocks of one process alias one hash. A model holds a single program's store, where this is not visible.
- Diagnostics printed by `puts` are not modelled. They are the unknown identifier, the non-function call, the argument-count mismatch, the unevaluable expression and the unexpected primary. Where Ruby continues after printing, the model continues with the value Ruby goes on with: `puts` returns nil.
- Ruby's dynamic dispatch of `+`, `-`, `*` and `/` on strings, blocks or nil is not modelled. String concatenation and repetition and the `NoMethodError` of other operands all become the error `UnsupportedOperand`.
- Runtime.Evaluate: recursion is bounded by `fuel`, so a proof about a program holds for a given fuel. A run that needs more fuel ends in `OutOfFuel`, whereas Ruby would recurse until its stack runs out.
- Runtime.ToI: covers numbers as the tokeniser produces them, which are runs of digits. `to_i` on other strings is not modelled: a sign, leading spaces, underscores.
- The Blocks methods do not specify the store after an error. A Ruby exception leaves hashes partly updated, and nothing reads them afterwards.
- The tokeniser's failure message is represented by the unmatched remainder it contains. The fixed message text is not modelled.
- The caller's token array is not modelled as shared. `@tokens = @initial_tokens` aliases it, so `Parser.parse` empties the caller's array. The model copies the tokens into the parser.
- The tokens `when`, `loop` and `true`/`false` are produced, but the parser gives them no meaning: they are skipped as primaries. The commented-out `parse_reference` and `indent!` are not part of the program.
- The `AssignmentExpr`, `UseExpr` and `ImportExpr` values the parser can build are evaluated as Ruby does: the first two fall into the unevaluable branch and yield nil. `BlockExpr` is evaluated but never built.
- parse_function_body's "End of file reached" branch (parser.rb:271-273) is not reachable: the loop condition reads the type of the missing token first. The model gives the missing-token error there.
- repl.rb and interpreter.rb are not part of this model. They do file and console I/O and call a `TopLevelScope` class that none of the three core files defines.
