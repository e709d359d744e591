# Expression tree builder — a Dafny model

`arbol_expresiones` is a web page that reads an arithmetic expression and
draws it as a binary tree. It handles integers, the operators `+ - * /` and
parentheses. When the user presses the button, the page does the following:

1. It resets a global node counter.
2. It removes every whitespace character from the input.
3. It refuses an empty expression.
4. It runs a ten-check syntax validator (`validarSintaxis`, which uses the
   parenthesis counter `validarParentesis`).
5. It tokenizes the text and converts it to postfix with the shunting-yard
   algorithm (`infixAPostfix`).
6. It builds the tree from the postfix sequence (`construirArbol`). Each node
   gets the next value of the counter as its id.

This project models that pipeline in Dafny and proves what it guarantees.
The modules follow the stages:

- `Tokens`: the operators, the precedence table, tokens and error kinds.
- `Parens`: the parenthesis counter, as a loop proved against the predicate
  `Balanced`.
- `Syntax`: the ten checks and the cascade `Validate`. A complete expression
  passes every check. A blank-free string that passes every check is a
  complete expression, provided it has no `(op` or `op)` pair.
- `SyntaxExamples`: inputs refused with a specific message.
- `Tokenizer`: the global match `/\d+|[+\-*/()]/g`.
- `ShuntingYard`: the converter. It is a loop program proved equal to a
  step-by-step specification. The lemmas state:
  - when the converter throws: exactly when the parentheses are unbalanced;
  - that the output is a rearrangement of the input without its
    parentheses, with the numbers kept in order.
- `ExpressionTree`: the counter-owning builder class. The lemmas state:
  - when the builder throws, and with which error;
  - that a built tree gives back the postfix in post-order, has numbers at
    its leaves, has ids counter, counter+1, … in post-order, and has one
    more leaf than branches.
- `Page`: the click handler.
- `Grammar`: a reference grammar with the usual precedence and left
  associativity. For every well-formed expression, the page applied to its
  text yields exactly the parse tree, with ids 0, 1, 2, … in post-order.
  The precedence, grouping and associativity examples are worked instances
  of this.
- `ValidatorGaps`: two inputs that pass all ten checks and then make the
  builder throw. In `2*(-3)`, `-` is read as a binary minus. In `(2+)`, the
  operator finds only one operand. The page reports these as processing
  errors rather than syntax errors.

Where the behaviour of the code differs from a plain reading of its intent,
the model follows the code:

- The tenth check removes the whole leading run of `(` and the whole
  trailing run of `)`, not just one layer.
- The fifth check lets a leading `-` through, but the tenth check then
  refuses it (`Syntax.MinusFirstFires`). So no input with a leading minus is
  accepted.
- The handler strips whitespace before it validates. The validator's
  handling of blanks (`\s*`, `trim()`) is modelled in full all the same.
- The counter is reset by the click handler, not by `construirArbol`.
  A build started with any other counter value numbers its nodes from that
  value.

## Model

| member | source | states |
|---|---|---|
| `Parens.ValidateParens` | public/js/main.js:13-24 | returns true exactly when no prefix of the input closes more parentheses than it opens and the whole input closes all it opens |
| `Parens.DepthAppend` | public/js/main.js:14-22 | the counter after `a + b` is the counter after `a` plus the counter after `b` |
| `Parens.NoParensBalanced` | public/js/main.js:13-24 | a string without parentheses is balanced |
| `Parens.BalancedAppend` | public/js/main.js:13-24 | two balanced strings side by side are balanced |
| `Parens.BalancedWrap` | public/js/main.js:13-24 | a balanced string wrapped in `(` and `)` is balanced |
| `Parens.OpenRunDepth` | public/js/main.js:14-22 | a run of `(` leaves the counter at its length |
| `Syntax.Validate` | public/js/main.js:27-79 | no error exactly when none of the ten checks fires; otherwise the reported check fires and every earlier check does not |
| `Syntax.InvalidCharactersWin` | public/js/main.js:28-31 | any character outside digits, operators, parentheses and space yields the first message, whatever else is wrong |
| `Syntax.AcceptedFacts` | public/js/main.js:27-79 | an accepted string is non-empty and balanced, and has only allowed characters, no operator pair and no trailing operator; no `()`, digit-`(`, `)`-digit or `)(` pair, even across blanks |
| `Syntax.DropLeadingOpenSpec` | public/js/main.js:74 | `replace(/^\(+/, '')` removes exactly the leading run of `(` and keeps the rest |
| `Syntax.DropTrailingCloseSpec` | public/js/main.js:74 | `replace(/\)+$/, '')` removes exactly the trailing run of `)` and keeps the rest |
| `Syntax.TrimNoSpaces` | public/js/main.js:44-49 | `trim()` leaves a blank-free string unchanged |
| `Syntax.TrimEndKeepsHead` | public/js/main.js:44-49 | `trim()` keeps a first character that is not whitespace |
| `Syntax.MinusFirstFires` | public/js/main.js:48-76 | a string that starts with `-` passes the fifth check but trips the tenth |
| `Syntax.BlankFreeChecks` | public/js/main.js:38-71 | on a blank-free string, checks 3 and 6 to 9 fire only on neighbouring characters |
| `Syntax.NoCheckFires` | public/js/main.js:27-79 | when none of the ten checks fires, the validator returns no error |
| `Syntax.ShapedIsAccepted` | public/js/main.js:27-79 | every complete expression (balanced, starts with a digit or `(`, ends with a digit or `)`, every neighbour pair allowed) passes all ten checks |
| `Syntax.AcceptedIsShaped` | public/js/main.js:27-79 | a blank-free accepted string with no `(op` and no `op)` pair is a complete expression |
| `SyntaxExamples.DoubledOperator` | public/js/main.js:38-41 | `2++3` is refused for consecutive operators |
| `SyntaxExamples.UnmatchedClose` | public/js/main.js:33-36 | `2+3)` is refused for unbalanced parentheses |
| `SyntaxExamples.EmptyPair` | public/js/main.js:53-56 | `()` is refused for empty parentheses |
| `SyntaxExamples.NumberBeforeGroup` | public/js/main.js:58-61 | `2(3+4)` is refused for a missing operator before `(` |
| `Tokenizer.TokenizeFails` | public/js/main.js:85-89 | tokenizing throws exactly when no character is a digit, operator or parenthesis; otherwise it returns the scan |
| `Tokenizer.ScanKeepsText` | public/js/main.js:85 | the tokens' texts, glued together, are exactly the input's digits, operators and parentheses, in order |
| `Tokenizer.ScanWellFormed` | public/js/main.js:85 | every number token is a non-empty run of digits |
| `Tokenizer.ScanMaximal` | public/js/main.js:85 | on input made only of token characters, no two number tokens are adjacent: digit runs are taken whole |
| `Tokenizer.ScanUnique` | public/js/main.js:85 | scanning the text of well-formed tokens with no two numbers adjacent gives those tokens back |
| `Tokenizer.ScanAppend` | public/js/main.js:85 | the scan of `a + b` is the scan of `a` then of `b` when no digit run crosses the seam |
| `Tokenizer.SkippedCharSplits` | public/js/main.js:85 | a skipped character separates the scans on either side of it |
| `Tokenizer.DigitsAreOneToken` | public/js/main.js:85 | a run of digits is a single number token |
| `ShuntingYard.InfixToPostfix` | public/js/main.js:82-123 | the loop program returns the tokenizing error, the converter's error or the postfix of the step-by-step specification |
| `ShuntingYard.PopOperatorsSpec` | public/js/main.js:95-99 | the operator branch moves to the output, top first, exactly the stacked operators above the nearest `(` that bind at least as tightly, and stops at the first that does not |
| `ShuntingYard.PopToOpenSpec` | public/js/main.js:103-110 | the `)` branch throws exactly when no `(` is stacked; otherwise it moves everything above the nearest `(` to the output, top first, and drops that `(` |
| `ShuntingYard.DrainSpec` | public/js/main.js:114-120 | emptying the stack, when it succeeds, appends the stack to the output top first, and the stack held no parenthesis |
| `ShuntingYard.DrainParens` | public/js/main.js:114-120 | emptying the stack throws exactly when a `(` is still on it |
| `ShuntingYard.FeedParens` | public/js/main.js:91-112 | one token throws exactly when it is a `)` that finds no `(`, and otherwise changes the open `(` count by the token's parenthesis step |
| `ShuntingYard.PopToOpenOpens` | public/js/main.js:103-110 | the `)` branch succeeds exactly when a `(` is stacked and closes one |
| `ShuntingYard.FeedFromParens` | public/js/main.js:91-112 | the main loop throws exactly when some prefix of the tokens closes more parentheses than were open |
| `ShuntingYard.ConvertFails` | public/js/main.js:91-120 | conversion fails exactly when the tokens' parentheses are unbalanced, and then only with the unbalanced-parentheses error |
| `ShuntingYard.FeedKeeps` | public/js/main.js:91-112 | one token keeps the numbers in order on the output, keeps every operator and number between output and stack, and adds no parenthesis to the output |
| `ShuntingYard.DrainKeeps` | public/js/main.js:114-120 | emptying the stack keeps the numbers and moves the operators to the output |
| `ShuntingYard.ConvertKeeps` | public/js/main.js:91-122 | a successful conversion has no parenthesis, the input's numbers in input order, and is a permutation of the input without its parentheses |
| `ExpressionTree.TreeBuilder.constructor` | public/js/main.js:126 | the counter starts at 0 |
| `ExpressionTree.TreeBuilder.Reset` | public/js/main.js:187 | the handler sets the counter to 0 |
| `ExpressionTree.TreeBuilder.Build` | public/js/main.js:127-158 | the loop returns the specified tree or error and leaves the counter where the specification says |
| `ExpressionTree.BuildFromOutcome` | public/js/main.js:130-151 | the loop throws the missing-operands error exactly when some operator finds fewer than two nodes; otherwise the stack gains one node per number and loses one per operator, and the counter advances by one per token |
| `ExpressionTree.ConstructOutcome` | public/js/main.js:127-158 | the build succeeds exactly on buildable postfix; it reports missing operands when an operator lacks two nodes, and dangling operands when the stack does not end with one node |
| `ExpressionTree.PushOrder` | public/js/main.js:131-149 | pushing a token's node extends the stack's post-order by that token and its ids by that id |
| `ExpressionTree.ConstructShape` | public/js/main.js:127-158 | a built tree gives the postfix back in post-order, has numbers at its leaves and operators at its branches, and has ids counter, counter+1, … in post-order |
| `ExpressionTree.TreeCounts` | public/js/main.js:142-149 | a well-typed tree has one more leaf than branches, and a leaf per number of its post-order |
| `ExpressionTree.ConstructCounts` | public/js/main.js:127-158 | a built tree has a leaf per number, a branch per operator, and one more leaf than branches |
| `ExpressionTree.BuildFromCounter` | public/js/main.js:130-151 | the counter advances by one per token: by every token when the loop finishes, by fewer when an operator throws |
| `ExpressionTree.ResetAndBuild` | public/js/main.js:187-202 | after the handler's reset, a build numbers its nodes from 0 |
| `Page.Generate` | public/js/main.js:185-207 | the handler yields the specified outcome and leaves the counter as `CounterAfter` says: 0 when the input never reaches the builder, where the builder stopped otherwise; after a tree, the counter equals the tree's size |
| `Page.CounterAfterRefusal` | public/js/main.js:187-199 | after an empty input or a validator refusal the counter is 0, as the reset left it |
| `Page.CounterAfterFailure` | public/js/main.js:187-206 | after a thrown error the counter is 0 if the converter threw, one per postfix token if the builder was left with dangling operands, and below the postfix length if an operator lacked operands |
| `Page.StripSpacesSpec` | public/js/main.js:188 | stripping leaves no whitespace, never lengthens, and leaves blank-free text unchanged |
| `Page.StripSpacesChar` | public/js/main.js:188 | one character is dropped exactly when it is whitespace, and kept otherwise |
| `Page.StripSpacesAppend` | public/js/main.js:188 | stripping a join is joining the stripped parts; with the previous row, stripping keeps exactly the non-blank characters, in order |
| `Page.ProcessIgnoresWhitespace` | public/js/main.js:188 | processing the stripped input gives the same outcome as processing the input |
| `Page.ProcessTree` | public/js/main.js:185-207 | whatever the counter held before, a tree the page draws has ids 0, 1, 2, … in post-order, is well typed, and has one more leaf than branches |
| `Grammar.InfixTokensClean` | public/js/main.js:85 | the tokens of a well-formed expression are non-empty and well formed, never two numbers in a row, start with a number or `(` and end with a number or `)` |
| `Grammar.TokenizeRendered` | public/js/main.js:85-89 | tokenizing the text of a well-formed expression gives back its tokens |
| `Grammar.RenderShaped` | public/js/main.js:27-79 | the text of a well-formed expression is a complete expression |
| `Grammar.RenderAccepted` | public/js/main.js:27-79 | the text of a well-formed expression passes all ten checks |
| `Grammar.PopRun` | public/js/main.js:95-99 | an operator pops exactly a run of stacked operators that bind at least as tightly, top first |
| `Grammar.GroupSteps` | public/js/main.js:101-110 | a parenthesised group pushes `(`, reads its inside, pops what the inside left pending and drops the `(`, leaving the stack as before |
| `Grammar.FeedExpr` | public/js/main.js:91-112 | reading a well-formed expression outputs what it completes and leaves its pending operators on the stack, when the stack's top does not pop for it |
| `Grammar.ConvertExpr` | public/js/main.js:91-122 | the converter turns the tokens of a well-formed expression into its post-order |
| `Grammar.BuildExpr` | public/js/main.js:130-151 | building from an expression's post-order pushes exactly its tree, numbered from the counter |
| `Grammar.ConstructExpr` | public/js/main.js:127-158 | building from an expression's post-order returns its tree and advances the counter by its size |
| `Grammar.RenderedPostfix` | public/js/main.js:82-123 | `infixAPostfix` on the text of a well-formed expression returns its post-order |
| `Grammar.EndToEnd` | public/js/main.js:185-207 | the page turns the text of every well-formed expression into exactly its parse tree, ids 0, 1, 2, … in post-order |
| `Grammar.LeftAssociativePostfix` | public/js/main.js:95-99 | `8-3-2` converts to `8 3 - 2 -` |
| `Grammar.LeftAssociativeTree` | public/js/main.js:185-207 | `8-3-2` gives a `-` root whose left child is the other `-` |
| `Grammar.ProductFirstPostfix` | public/js/main.js:5-10 | `2+3*4` converts to `2 3 4 * +` |
| `Grammar.ProductFirstTree` | public/js/main.js:185-207 | `2+3*4` gives a `+` root whose right child is `*` |
| `Grammar.GroupFirstPostfix` | public/js/main.js:101-110 | `(2+3)*4` converts to `2 3 + 4 *` |
| `Grammar.GroupFirstTree` | public/js/main.js:185-207 | `(2+3)*4` gives a `*` root whose left child is `+` |
| `ValidatorGaps.NegatedGroupValid` | public/js/main.js:27-79 | `2*(-3)` passes all ten checks |
| `ValidatorGaps.NegatedGroupPostfix` | public/js/main.js:91-120 | `2 * ( - 3 )` converts to `2 3 - *` |
| `ValidatorGaps.NegatedGroupBuild` | public/js/main.js:139-141 | building from `2 3 - *` throws missing operands |
| `ValidatorGaps.NegatedGroupPassesButFails` | public/js/main.js:195-206 | `2*(-3)` is accepted by the validator and then reported as a processing error |
| `ValidatorGaps.OpenOperandValid` | public/js/main.js:27-79 | `(2+)` passes all ten checks |
| `ValidatorGaps.OperatorBeforeClosePassesButFails` | public/js/main.js:195-206 | `(2+)` is accepted by the validator and then reported as a processing error |

## Left out

- Drawing the tree is not modelled: `renderArbol`, its positions, the connecting lines and the DOM. Neither are the alerts. The outcome is the tree or the kind of error that the alert would show.
- Messages are modelled as error kinds, one per message. The Spanish text is not modelled.
- A node id is the number k rather than the string `n<k>`. The map from k to `n<k>` is one-to-one, so distinctness and order carry over.
- `isNaN` is replaced by the token's kind. Every token the tokenizer produces is a digit run or one of six symbols, and `isNaN` tells exactly those apart.
- JavaScript strings are UTF-16 code units; the model uses Dafny characters. The regular expressions used here involve only ASCII classes and JavaScript's whitespace set, which is spelled out in `Syntax.IsSpace`.
- The node counter is a field of one builder object, not a module-level variable. Concurrent use of the page is outside the model.
- Reading the input field is not modelled; the input is a parameter.
