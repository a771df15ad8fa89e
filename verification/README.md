# ast-parser in Dafny

A model of a small JavaScript-subset parser. The parser turns source text into
an ESTree-like syntax tree. It comes in two dialects that share one design:

- `Src` is the Node.js variant in `src/`.
- `Web` is the browser variant in `parser-web/`.

Each dialect has two parts:

- A **tokenizer**. It walks an ordered table of anchored regular expressions and
  takes the first rule that matches at the cursor. A rule without a token type,
  such as whitespace or a comment, is skipped. If no rule matches, lexing fails
  on the character at the cursor.
- An **LL(1) recursive-descent parser**. It reads that token stream and builds a
  `Program` of statements and expressions. It has ten precedence levels and
  needs a single token of lookahead.

## How the model is organised

Modules follow the program's structure:

| module | file | what it holds |
|---|---|---|
| `Chars` | chars.dfy | the character classes `\d`, `\w`, `\s` and the line terminators |
| `Tokens` | tokens.dfy | token kinds of both dialects, `Token(kind, text)`, `Error`, and what a valid lexeme of each kind looks like |
| `Patterns` | patterns.dfy | one matcher per regular-expression shape that appears in the rule tables, returning the length of the anchored match |
| `Rules` | rules.dfy | the two rule tables, `SrcSpec` (`src/tokenizer.js`) and `WebSpec` (`parser-web/spec.js`), rule by rule and in source order |
| `Tokenizer` | tokenizer.dfy | `getNextToken` (first-match loop, skip recursion, the throw) and tokenization of a whole string |
| `TokenizerFacts` | tokenizer_facts.dfy | tokenization as a tiling of the input, its uniqueness, and the soundness of every rule |
| `RuleOrder`, `WebRuleOrder` | rule_order.dfy, web_rule_order.dfy | what the rule order does to concrete inputs (`!=`, `+=`, `letx`, `returnx`, `iffy`, an unterminated comment, ...) |
| `Ast` | ast.dfy | the node types and what a well-formed tree of each dialect is |
| `Parser` | parser.dfy | every production of both parsers, as pure functions over a token sequence and a position |
| `Printer` | printer.dfy | a printer from trees to token sequences, the partner of the parser |
| `RoundTrip`, `StatementRoundTrip` | roundtrip.dfy, statements.dfy | a printed tree is read back by the parser |
| `ParserFacts` | parser_facts.dfy | associativity, precedence, assignment targets and the failure cases, stated on token sequences |
| `Frontend` | frontend.dfy | `parse(string)`: tokenize, then parse |

The parser state in the source is a lookahead token and a tokenizer cursor. The
model replaces that state with a position into a token sequence, and each
production returns `Parsed(node, next)` or an error. Tokenizing first and then
parsing gives the same results as pulling tokens lazily, as long as lexing
succeeds (see "Left out").

The following production helpers have no method of their own in the source. They
are factored out of the methods that contain them:

- `ParenCondition`, the `( Expression )` of `if` and `while`.
- `ElseClause`.
- `OptionalExpression`, `ForInit` and `ForClauses`, the pieces of Web's `for`.
- `Parameters` and `FunctionBody`.
- `SimpleStatement`: the statements that cannot end in an open `if`.

Loops in the source (`do ... while (',' && _eat(','))`, the `while` of
MemberExpression, `StatementList`) become tail-recursive `...Tail` functions.
Web's member loop uses two `if` tests per turn, and src uses `if`/`else`; these
are the same function.

The AST keeps the source's node types and fields. Some fields are renamed where
Dafny needs distinct names:

- `BlockStatement.statements` is the source's `body`.
- `ForStatement.condition` is `test`.
- `MemberExpression.obj` is `object`.
- `NumericLiteral.number`, `StringLiteral.chars` and `BooleanLiteral.truth` are
  each the source's `value`.
- Identifier nodes in the `id` and `params` positions are kept as their names.

`Error` is `LexError(at, ch)` (the tokenizer's "Unexpected token") or
`SyntaxError` (any parser failure).

The partner of the parser is `Printer`. It prints a tree as a fully
parenthesised token sequence. `StatementRoundTrip.ProgramRoundTrip` proves that
parsing a printed well-formed program gives that program back. The partner of
the tokenizer is the `Tiles` relation: a tokenization is a sequence of tokens,
each produced by the first matching rule at its position, with only skip
lexemes between them. `TokenizerFacts.TilesTokenize` and
`TokenizerFacts.TokenizeTiles` prove that tokenizing and tiling agree.

## Model

| member | source | states |
|---|---|---|
| Patterns.Span | src/tokenizer.js:2 | a greedy `\s+`/`\d+`/`\w+`/`.*` run: every character in the run has the class, and the character after it does not (or the input ends) |
| Patterns.FindCommentEnd | src/tokenizer.js:4 | the lazy `[\s\S]*?\*\/` stops at the first `*/` at or after the start; no earlier `*/` exists; absent exactly when no `*/` follows |
| Patterns.IndexOf | src/tokenizer.js:22-23 | the lazy string body ends at the first later occurrence of the quote; absent exactly when the quote does not occur again |
| Patterns.MatchWords | src/tokenizer.js:14-20 | an alternation match is one of the alternatives, is a prefix of the input, and, when the rule is bounded, is followed by a word boundary |
| Patterns.MatchWordsSpec | src/tokenizer.js:14-20 | the alternation fails exactly when no alternative is a non-empty prefix followed (if bounded) by a word boundary, and otherwise matches the first alternative that is |
| Patterns.MatchLen | src/tokenizer.js:78-83 | a match is a non-empty prefix of the remaining input, so the cursor strictly advances |
| Patterns.MatchStartsWith | src/tokenizer.js:1-41 | a rule can only match input whose first character it can start with |
| Tokenizer.FirstMatchFrom | src/tokenizer.js:64-66 | the rule it finds lies in the searched part of the table |
| Tokenizer.FirstMatchSpec | src/tokenizer.js:64-72 | the rule found matches with the reported length and no earlier rule matches; nothing is found only when no rule matches |
| Tokenizer.GetNextToken | src/tokenizer.js:57-60 | at the end of the input the next token is `null` |
| Tokenizer.GetNextTokenSpec | src/tokenizer.js:57-76 | `null` only after skip lexemes running to the end; a token is the first-matching lexeme after skip lexemes; a failure is at a character where no rule matches |
| Tokenizer.TokenizeFromSpec | parser-web/tokenizer.js:12-38 | a successful tokenization tiles the rest of the input; a failure names a position and character of the input |
| TokenizerFacts.SkipStep | src/tokenizer.js:67 | a match by a rule without a type restarts tokenization after the match |
| TokenizerFacts.SkipsAdvance | parser-web/tokenizer.js:20 | a run of skip lexemes is passed over as a whole |
| TokenizerFacts.EndOfInput | src/tokenizer.js:57-60 | the next token is `null` exactly when only skip lexemes remain |
| TokenizerFacts.ProducesNext | src/tokenizer.js:68-71 | a token produced at the cursor is returned with the cursor moved past its text |
| TokenizerFacts.NextAfterSkips | src/tokenizer.js:62-72 | skip lexemes followed by a produced token give that token |
| TokenizerFacts.TokenizeEnd | parser-web/tokenizer.js:13 | an input with only skip lexemes left tokenizes to no tokens |
| TokenizerFacts.NoTokens | src/tokenizer.js:57-67 | a text tokenizes to no tokens exactly when it is all whitespace and comments |
| TokenizerFacts.TilesTokenize | parser-web/tokenizer.js:12-31 | every tiling of the input is the tokenization, so the tokenization is unique |
| TokenizerFacts.TokenizeTiles | parser-web/tokenizer.js:17-25 | tokenization succeeds with a token sequence exactly when that sequence tiles the input |
| TokenizerFacts.TokenizeFromProduced | parser-web/tokenizer.js:17-24 | every token comes from the first rule that matches where it starts |
| TokenizerFacts.TablesSound | src/tokenizer.js:1-41 | every rule of both tables yields only lexemes valid for its kind |
| TokenizerFacts.MatchSound | src/tokenizer.js:21-23 | a NUMBER lexeme is all digits, a STRING lexeme is quoted at both ends with no inner quote of its kind, and so on for each kind |
| TokenizerFacts.TokenizeValid | parser-web/spec.js:1-79 | every token of a successful tokenization, in both dialects, is a valid lexeme of its kind |
| RuleOrder.Wins | src/tokenizer.js:64-71 | the first rule to match, if it has a type, gives the token, and the cursor moves by its length |
| RuleOrder.Skipped | src/tokenizer.js:67 | the first rule to match, if it has no type, is passed over |
| RuleOrder.Stuck | src/tokenizer.js:74 | when no rule matches, lexing fails on the character at the cursor |
| RuleOrder.SrcWhitespace | src/tokenizer.js:2 | a run of whitespace is skipped as a whole |
| RuleOrder.SrcLineComment | src/tokenizer.js:3 | `//` skips to the end of the line |
| RuleOrder.SrcBlockComment | src/tokenizer.js:4 | a block comment is skipped up to its first `*/` |
| RuleOrder.SrcUnterminatedComment | src/tokenizer.js:25 | `/*` without a closing `*/` lexes as the operator `/` |
| RuleOrder.SrcIdentifier | src/tokenizer.js:14-40 | a letter-led word that is not one of the bounded keywords `let var const if while else true false null` and does not begin with any of `return function class extends new super this` is one IDENTIFIER up to the end of the word, `letx` and `iffy` among them; a word that does begin with one of those is split, as `RuleOrder.SrcKeywordPrefix` states |
| RuleOrder.SrcReturnPrefix | src/tokenizer.js:33 | `return` has no boundary: `returnx` lexes as `return` then `x` |
| RuleOrder.SrcKeywordPrefix | src/tokenizer.js:33-39 | none of `return function class extends new super this` has a trailing boundary: wherever the text at the cursor starts with one of them, the next token is that keyword with its own kind, whatever follows, so `newton` lexes as `new` then `ton` and `className` as `class` then `Name` |
| RuleOrder.SrcAdditive | src/tokenizer.js:24 | `+` and `-` are one-character ADDITIVE_OPERATOR tokens |
| RuleOrder.SrcStar | src/tokenizer.js:25 | `*` is a MULTIPLICATIVE_OPERATOR |
| RuleOrder.SrcRelational | src/tokenizer.js:26 | `<` or `>` not followed by `=` is a one-character RELATIONAL_OPERATOR |
| RuleOrder.SrcRelationalEq | src/tokenizer.js:26 | `<=` and `>=` are one RELATIONAL_OPERATOR |
| RuleOrder.SrcBang | src/tokenizer.js:29 | `!` always lexes as LOGICAL_NOT, because its rule precedes the equality rule, so `!=` is `!` then `=` |
| RuleOrder.SrcEquality | src/tokenizer.js:30 | `==` not followed by `=` is one EQUALITY_OPERATOR |
| RuleOrder.SrcStrictEquality | src/tokenizer.js:30 | `===` is one EQUALITY_OPERATOR |
| RuleOrder.SrcAssign | src/tokenizer.js:31 | `=` not followed by `=` is SIMPLE_ASSIGN |
| RuleOrder.SrcNoComplexAssignAt | src/tokenizer.js:32 | the COMPLEX_ASSIGN rule never wins: `+=` is `+` then `=` |
| RuleOrder.SrcNoComplexAssign | src/tokenizer.js:24-32 | no Src tokenization contains a COMPLEX_ASSIGN token |
| RuleOrder.SrcAtSign | src/tokenizer.js:74 | `@` matches no rule and fails lexing there |
| RuleOrder.SrcUnterminatedString | src/tokenizer.js:22 | a `"` without a closing `"` matches no rule and fails lexing |
| WebRuleOrder.WebWhitespace | parser-web/spec.js:16 | a run of whitespace is skipped as a whole |
| WebRuleOrder.WebLineComment | parser-web/spec.js:19 | `//` skips to the end of the line |
| WebRuleOrder.WebBlockComment | parser-web/spec.js:20 | a block comment is skipped up to its first `*/` |
| WebRuleOrder.WebUnterminatedComment | parser-web/spec.js:74 | `/*` without a closing `*/` lexes as the operator `/` |
| WebRuleOrder.WebComplexAssign | parser-web/spec.js:65 | `+=`, `-=`, `*=`, `/=` are one COMPLEX_ASSIGN |
| WebRuleOrder.WebRelational | parser-web/spec.js:54 | `<` or `>` not followed by `=` is a one-character RELATIONAL_OPERATOR |
| WebRuleOrder.WebRelationalEq | parser-web/spec.js:54 | `<=` and `>=` are one RELATIONAL_OPERATOR |
| WebRuleOrder.WebNotEqual | parser-web/spec.js:57 | `!=` is one EQUALITY_OPERATOR |
| WebRuleOrder.WebStrictNotEqual | parser-web/spec.js:57 | `!==` is one EQUALITY_OPERATOR |
| WebRuleOrder.WebBang | parser-web/spec.js:68 | `!` not followed by `=` is LOGICAL_NOT |
| WebRuleOrder.WebEquality | parser-web/spec.js:57 | `==` not followed by `=` is one EQUALITY_OPERATOR |
| WebRuleOrder.WebStrictEquality | parser-web/spec.js:57 | `===` is one EQUALITY_OPERATOR |
| WebRuleOrder.WebAssign | parser-web/spec.js:64 | `=` not followed by `=` is SIMPLE_ASSIGN |
| WebRuleOrder.WebAtSign | parser-web/tokenizer.js:27 | `@` matches no rule and fails lexing there |
| WebRuleOrder.WebUnterminatedString | parser-web/spec.js:27 | a `"` without a closing `"` matches no rule and fails lexing |
| WebRuleOrder.WebIdentifier | parser-web/spec.js:29-77 | a letter-led word that is not one of the bounded keywords `true false null` and does not begin with any of `let var const if else while for function return this` is one IDENTIFIER up to the end of the word, `nullable`, `trueish` and `class` among them; a word that does begin with one of those is split, as `WebRuleOrder.WebKeywordPrefix` states |
| WebRuleOrder.WebDeclarationPrefix | parser-web/spec.js:36 | `let`, `var` and `const` have no boundary: `variable` lexes as DECLARATION `var` then `iable` |
| WebRuleOrder.WebIfPrefix | parser-web/spec.js:39 | `if` has no boundary: `iffy` lexes as `if` then `fy` |
| WebRuleOrder.WebForPrefix | parser-web/spec.js:44 | `for` has no boundary: `format` lexes as `for` then `mat` |
| WebRuleOrder.WebKeywordPrefix | parser-web/spec.js:36-51 | none of `let var const if else while for function return this` has a trailing boundary: wherever the text at the cursor starts with one of them, the next token is that keyword with its own kind (DECLARATION for the first three), whatever follows, so `letter` lexes as `let` then `ter` and `elsewhere` as `else` then `where` |
| Parser.LookaheadKind | src/parser.js:34 | reading the lookahead type succeeds exactly when a token remains, and gives its kind |
| Parser.Peek | src/parser.js:321 | a lookahead test succeeds exactly when a token remains, and is true exactly when its kind is the one asked for |
| Parser.Eat | src/parser.js:452-463 | `_eat` succeeds exactly when the lookahead has the expected type, returning it and moving on by one |
| Parser.Literal | src/parser.js:408-417 | a literal is read exactly when the lookahead is a literal kind of the dialect; it consumes one token and is well formed |
| Parser.Identifier | src/parser.js:238-244 | an Identifier is read exactly when the lookahead is IDENTIFIER, naming its text |
| Parser.AssignmentExpression | src/parser.js:222-235 | an Expression consumes at least one token and is well formed |
| Parser.Operand | src/parser.js:263-277 | the operand of a binary level consumes at least one token and is well formed |
| Parser.Binary | src/parser.js:279-292 | a binary level consumes at least one token and is well formed |
| Parser.BinaryTail | src/parser.js:281-290 | the operator loop of a binary level keeps the result well formed |
| Parser.Unary | src/parser.js:294-312 | a UnaryExpression consumes at least one token and is well formed |
| Parser.CallMember | src/parser.js:319-325 | a CallMemberExpression consumes at least one token and is well formed |
| Parser.CallTail | src/parser.js:327-337 | repeated calls keep the result well formed |
| Parser.Arguments | src/parser.js:339-344 | Arguments consume at least `(` and `)`, and every argument is well formed |
| Parser.ArgumentList | src/parser.js:346-353 | an ArgumentList has at least one argument |
| Parser.ArgumentListTail | src/parser.js:350 | the argument loop only appends |
| Parser.Member | src/parser.js:355-380 | a MemberExpression consumes at least one token and is well formed |
| Parser.MemberTail | src/parser.js:357-378 | the member loop keeps the result well formed |
| Parser.Primary | src/parser.js:382-394 | a PrimaryExpression consumes at least one token and is well formed |
| Parser.Program | src/parser.js:18-23 | a Program has at least one statement and is well formed |
| Parser.StatementList | src/parser.js:25-31 | a StatementList has at least one statement and ends at the end of input or before the stop token |
| Parser.StatementListTail | src/parser.js:27-29 | the statement loop only appends, and stops only at the end of input or at the stop token |
| Parser.Statement | src/parser.js:33-54 | a Statement consumes at least one token; an `if` left without `else` is never followed by `else` |
| Parser.SimpleStatement | parser-web/parser.js:31-52 | statements other than `if`, `while`, `for` and `function` never end in an open `if` |
| Parser.EmptyStatement | src/parser.js:169-174 | an EmptyStatement is read exactly when the lookahead is `;` |
| Parser.BlockStatement | src/parser.js:176-184 | a BlockStatement spans from `{` to its `}` |
| Parser.ParenCondition | src/parser.js:113-116 | a condition spans from `(` to its `)` with an Expression inside |
| Parser.ElseClause | src/parser.js:121-122 | an `else` branch is present exactly when `else` is the lookahead |
| Parser.IfStatement | src/parser.js:113-131 | an IfStatement is read; when its last `if` has no `else`, no `else` follows it |
| Parser.WhileStatement | src/parser.js:100-111 | a WhileStatement is read and is well formed |
| Parser.OptionalExpression | parser-web/parser.js:112 | an optional Expression is absent exactly when the lookahead is the closing token, and then consumes nothing |
| Parser.ForInit | parser-web/parser.js:110-111 | the init clause always ends with `;`, and when present it is a variable statement |
| Parser.ForClauses | parser-web/parser.js:108-115 | the `for` header yields its init, test and update |
| Parser.ForStatement | parser-web/parser.js:107-124 | a ForStatement is read and is well formed |
| Parser.FormalParameterList | src/parser.js:82-88 | a FormalParameterList has at least one name |
| Parser.FormalParameterTail | parser-web/parser.js:155-157 | the parameter loop only appends names |
| Parser.Parameters | parser-web/parser.js:141-143 | the parameter part spans from `(` to `)`, and every parameter is a name |
| Parser.FunctionDeclaration | src/parser.js:67-80 | a FunctionDeclaration is read and is well formed |
| Parser.FunctionBody | src/parser.js:67-80 | in Src the body of a function is a BlockStatement |
| Parser.ReturnStatement | src/parser.js:90-98 | a ReturnStatement is read and is well formed |
| Parser.ClassDeclaration | src/parser.js:56-65 | a ClassDeclaration is read and is well formed |
| Parser.VariableStatement | src/parser.js:133-143 | a VariableStatement ends with `;` |
| Parser.VariableDeclarationList | src/parser.js:145-151 | a declaration list has at least one declarator |
| Parser.VariableDeclarationTail | parser-web/parser.js:204-210 | the declarator loop only appends well-formed declarators |
| Parser.VariableDeclarator | src/parser.js:153-162 | a declarator is read and is well formed |
| Parser.ExpressionStatement | src/parser.js:186-193 | an ExpressionStatement is read and is well formed |
| ParserFacts.LeftAssociative | src/parser.js:279-292 | for any three operands of one binary or logical level, two operators of that level fold to the left, and each node keeps its operator's lexeme |
| ParserFacts.SubtractionFoldsLeft | src/parser.js:279-292 | `1-2-3` is `(1-2)-3` |
| ParserFacts.ProductBindsTighter | src/parser.js:263-277 | `2+3*4` is `2+(3*4)` |
| ParserFacts.TighterOnRight | src/parser.js:263-277 | for any operands, a tighter operator on the right groups first: `x op y tight z` is `x op (y tight z)` |
| ParserFacts.TighterOnLeft | src/parser.js:263-277 | for any operands, a tighter operator on the left groups first: `x tight y op z` is `(x tight y) op z` |
| ParserFacts.AssignmentNestsRight | src/parser.js:222-235 | `a=b=1` is `a=(b=1)`, with each operator's lexeme kept |
| ParserFacts.NoAssignmentWrapper | src/parser.js:224-226 | without an assignment operator the left side is returned unwrapped |
| ParserFacts.AssignmentNeedsTarget | src/parser.js:247-250 | an assignment succeeds exactly when its left side is an Identifier or a MemberExpression |
| ParserFacts.LiteralTargetFails | src/parser.js:247-250 | a literal before an assignment operator fails |
| ParserFacts.PrefixesNest | src/parser.js:294-312 | prefix operators nest: `!!x` is `!(!x)` |
| ParserFacts.ParenthesesVanish | src/parser.js:396-401 | parentheses produce no node: `((x))` is `x` |
| ParserFacts.CallsNest | src/parser.js:327-337 | `f()()` is a call of the call `f()` |
| ParserFacts.MembersFoldLeft | src/parser.js:355-380 | `a.b[c]` is `(a.b)[c]`, non-computed then computed |
| ParserFacts.MemberAfterCallFails | src/parser.js:319-337 | a member access after a call, as in `a.b().c;`, fails, because nothing reads a member after a call |
| ParserFacts.AccessAfterCallFails | src/parser.js:319-380 | whenever the call-and-member level stops in front of `.` or `[`, what it read is a call (the member loop reads every accessor, so only the call loop can stop there), that call is the whole expression, and the statement fails for want of `;` |
| ParserFacts.OperandMissing | src/parser.js:382-394 | a token with no PrimaryExpression case, such as `)` or Src's `this`, fails the whole Expression |
| ParserFacts.MissingSemicolon | src/parser.js:186-193 | every expression statement whose expression is not followed by `;` fails, whatever token it starts with |
| ParserFacts.FirstStatementFails | src/parser.js:25-26 | a Program fails when its first Statement does |
| ParserFacts.EmptyBlock | src/parser.js:176-184 | `{}` is a BlockStatement with an empty body |
| ParserFacts.SrcReturnNeedsArgument | src/parser.js:90-98 | in Src `return;` fails: the argument is a required Expression |
| ParserFacts.WebReturnArgument | parser-web/parser.js:167-175 | in Web the argument is absent exactly when `;` follows `return` |
| ParserFacts.DeclaratorInit | src/parser.js:153-167 | a declarator has an initializer exactly when `=` follows its name |
| ParserFacts.ForInitAbsent | parser-web/parser.js:110-111 | the init clause is absent exactly when `;` is the lookahead |
| ParserFacts.ForClausesAbsent | parser-web/parser.js:110-115 | after any init clause, the test is absent exactly when `;` is the lookahead, and the update is absent exactly when `)` follows the test's `;` |
| Printer.DecimalDigits | src/parser.js:443-450 | a printed number is all decimal digits, so it lexes as NUMBER |
| Printer.QuoteLexeme | src/parser.js:434-441 | a quoted string is a valid STRING lexeme, and stripping its first and last character gives the value back |
| Printer.PrintExprStarts | src/parser.js:382-394 | a printed expression starts with a token PrimaryExpression handles |
| Printer.PrintStmt | src/parser.js:33-54 | a printed statement is non-empty and never starts with `else` or `}` |
| RoundTrip.OperandRoundTrip | src/parser.js:382-394 | a printed one-token operand is read back by PrimaryExpression |
| RoundTrip.PrimaryRoundTrip | src/parser.js:382-401 | every printed expression is read back by PrimaryExpression |
| RoundTrip.ExprAt | src/parser.js:199-292 | a printed expression followed by a token that continues no level is read back by every level from Expression down |
| RoundTrip.LogicalRoundTrip | src/parser.js:207-220 | a printed logical expression is read back |
| RoundTrip.BinaryRoundTrip | src/parser.js:279-292 | a printed binary expression is read back |
| RoundTrip.AssignmentRoundTrip | src/parser.js:222-235 | a printed assignment is read back |
| RoundTrip.UnaryRoundTrip | src/parser.js:294-312 | a printed unary expression is read back |
| RoundTrip.CallRoundTrip | src/parser.js:327-337 | a printed call is read back |
| RoundTrip.IndexRoundTrip | src/parser.js:367-377 | a printed computed member access is read back |
| RoundTrip.DotRoundTrip | src/parser.js:358-366 | a printed `.name` member access is read back |
| RoundTrip.ArgumentsRoundTrip | src/parser.js:339-353 | a printed argument list is read back |
| StatementRoundTrip.OptionalRoundTrip | parser-web/parser.js:112-114 | a printed optional expression is read back by OptionalExpression |
| StatementRoundTrip.EmptyRoundTrip | src/parser.js:169-174 | a printed `;` is read back as an EmptyStatement |
| StatementRoundTrip.ExpressionStatementRoundTrip | src/parser.js:186-193 | a printed ExpressionStatement is read back |
| StatementRoundTrip.DeclaratorRoundTrip | src/parser.js:153-167 | a printed declarator is read back |
| StatementRoundTrip.VariableRoundTrip | src/parser.js:133-151 | a printed VariableStatement starts with the dialect's declaration token and is read back |
| StatementRoundTrip.ReturnRoundTrip | src/parser.js:90-98 | a printed ReturnStatement is read back |
| StatementRoundTrip.ListRoundTrip | src/parser.js:25-31 | printed statements followed by the end of input or `}` are read back by the statement loop |
| StatementRoundTrip.BlockRoundTrip | src/parser.js:176-184 | a printed block is read back |
| StatementRoundTrip.ConditionRoundTrip | src/parser.js:113-116 | a printed `( test )` is read back |
| StatementRoundTrip.ElseRoundTrip | src/parser.js:121-122 | a printed `else` branch is read back, unless an `else` follows an `if` that is still open |
| StatementRoundTrip.IfRoundTrip | src/parser.js:113-131 | a printed IfStatement is read back |
| StatementRoundTrip.WhileRoundTrip | src/parser.js:100-111 | a printed WhileStatement is read back |
| StatementRoundTrip.ForInitRoundTrip | parser-web/parser.js:110-111 | a printed init clause is read back |
| StatementRoundTrip.ClausesRoundTrip | parser-web/parser.js:108-115 | a printed `for` header is read back |
| StatementRoundTrip.ForRoundTrip | parser-web/parser.js:107-124 | a printed ForStatement is a Web statement and is read back |
| StatementRoundTrip.ParamsRoundTrip | parser-web/parser.js:141-160 | a printed parameter list is read back |
| StatementRoundTrip.FunctionRoundTrip | src/parser.js:67-88 | a printed FunctionDeclaration is read back |
| StatementRoundTrip.ClassRoundTrip | src/parser.js:56-65 | a printed ClassDeclaration is read back |
| StatementRoundTrip.StatementRoundTrip | src/parser.js:33-54 | every printed statement is read back by Statement, unless `else` follows a statement that ends in an open `if` |
| StatementRoundTrip.ProgramRoundTrip | src/parser.js:18-31 | parsing the tokens of a printed well-formed program gives the program back |
| Frontend.Parse | src/parser.js:9-16 | a parse succeeds only with a non-empty, well-formed Program, and a lexing failure is reported as that failure |
| Frontend.BlankInputFails | src/parser.js:13-34 | a source of only whitespace and comments fails: the first Statement reads the type of a `null` lookahead |

## Left out

- Regular expressions: no RegExp engine is modelled. Each regular-expression
  shape that appears in the two tables has its own matcher (`Patterns`). These
  matchers cover only those shapes.
- `\s` is the set tab, VT, FF, space, U+00A0, U+FEFF, U+1680, U+2000–U+200A,
  U+202F, U+205F, U+3000, and the line terminators LF, CR, U+2028 and U+2029.
  `.` excludes the line terminators.
- Strings are sequences of Unicode scalar values, not UTF-16 code units. A
  character outside the Basic Multilingual Plane is one character here but two
  code units to the source's `slice` and `length`, so positions in error values
  can differ on such input.
- Number values: `Number(token.value)` is floating point. The model keeps the
  exact natural number the digits spell, so it does not model rounding for very
  long digit strings.
- Error values: the error message texts are left out. Every parser failure is
  `SyntaxError`. This includes the TypeError the source raises when it reads
  `.type` of a `null` lookahead.
- Default branch of PrimaryExpression: in both dialects (src/parser.js:391-392
  and parser-web/parser.js:434-435) the default branch calls the
  left-hand-side rule again without consuming a token. That recursion never
  ends and overflows the stack. The model reports `SyntaxError` there.
- Error kind on invalid input: the model tokenizes the whole input before
  parsing. The source pulls tokens lazily. On input that fails both lexing and
  parsing, the model reports the lexing failure, while the source may report
  the syntax error first. When lexing succeeds, the results are the same.
- Parser object state: the parser and tokenizer are stateful objects that can
  be reused. The model makes them pure functions of the input. `isEOF`
  (src/tokenizer.js:49-51) is never called, so it is not modelled.
  `hasMoreTokens` (Web: `hasMoreToken`) is the end-of-input test at the start
  of `getNextToken`, and it is modelled there.
- Keyword tokens: Src lexes `extends`, `new` and `super`, but no production uses
  them. They are kept as token kinds, and any statement that reaches them fails
  like any other unexpected token.
- Files outside the core: `parser-web/index.js` (the page UI) and
  `__test__/run.js`, `__test__/call-test.js` and `__test__/variable-test.js`
  (the test harness and its sample programs) are not part of this model.
- Tokenizer.FirstMatchFrom: its own contract only bounds the index it returns.
  The fact that the index is the first matching rule is
  `Tokenizer.FirstMatchSpec`.
- Patterns.MatchWords: its own contract gives only the found direction. That
  nothing is found exactly when no alternative fits, and that the first fitting
  alternative is taken, is `Patterns.MatchWordsSpec`.
- Parser.AssignmentExpression: its own contract states only progress and well-formedness; the trees are fixed by `ParserFacts` and by `RoundTrip.AssignmentRoundTrip`.
- Parser.Operand: its own contract states only progress and well-formedness; the trees are fixed by `ParserFacts` and by `RoundTrip.ExprAt`.
- Parser.Binary: its own contract states only progress and well-formedness; the trees are fixed by `ParserFacts.LeftAssociative`, `ParserFacts.TighterOnRight`, `ParserFacts.TighterOnLeft` and `RoundTrip.BinaryRoundTrip`.
- Parser.BinaryTail: its own contract states only progress and well-formedness; the fold is fixed by `ParserFacts.LeftAssociative`.
- Parser.Unary: its own contract states only progress and well-formedness; the trees are fixed by `ParserFacts.PrefixesNest` and `RoundTrip.UnaryRoundTrip`.
- Parser.CallMember: its own contract states only progress and well-formedness; the trees are fixed by `ParserFacts.CallsNest`, `ParserFacts.AccessAfterCallFails` and `RoundTrip.CallRoundTrip`.
- Parser.CallTail: its own contract states only progress and well-formedness; the trees are fixed by `ParserFacts.CallsNest` and `ParserFacts.AccessAfterCallFails`.
- Parser.Member: its own contract states only progress and well-formedness; the trees are fixed by `ParserFacts.MembersFoldLeft`, `RoundTrip.DotRoundTrip` and `RoundTrip.IndexRoundTrip`.
- Parser.MemberTail: its own contract states only progress and well-formedness; the fold is fixed by `ParserFacts.MembersFoldLeft`.
- Parser.Primary: its own contract states only progress and well-formedness; the trees are fixed by `ParserFacts.ParenthesesVanish`, `ParserFacts.OperandMissing` and `RoundTrip.PrimaryRoundTrip`.
- Parser.IfStatement: its own contract states only progress, well-formedness and that no `else` follows an open `if`; the tree is fixed by `StatementRoundTrip.IfRoundTrip`.
- Parser.WhileStatement: its own contract states only progress and well-formedness; the tree is fixed by `StatementRoundTrip.WhileRoundTrip`.
- Parser.ForClauses: its own contract states only progress and well-formedness; the clauses are fixed by `ParserFacts.ForClausesAbsent` and `StatementRoundTrip.ClausesRoundTrip`.
- Parser.ForStatement: its own contract states only progress and well-formedness; the tree is fixed by `StatementRoundTrip.ForRoundTrip`.
- Parser.FunctionDeclaration: its own contract states only progress and well-formedness; the tree is fixed by `StatementRoundTrip.FunctionRoundTrip`.
- Parser.ReturnStatement: its own contract states only progress and well-formedness; the tree is fixed by `ParserFacts.WebReturnArgument`, `ParserFacts.SrcReturnNeedsArgument` and `StatementRoundTrip.ReturnRoundTrip`.
- Parser.ClassDeclaration: its own contract states only progress and well-formedness; the tree is fixed by `StatementRoundTrip.ClassRoundTrip`.
- Parser.VariableDeclarator: its own contract states only progress and well-formedness; the tree is fixed by `ParserFacts.DeclaratorInit` and `StatementRoundTrip.DeclaratorRoundTrip`.
- Parser.ExpressionStatement: its own contract states only progress and well-formedness; the tree is fixed by `ParserFacts.MissingSemicolon` and `StatementRoundTrip.ExpressionStatementRoundTrip`.
