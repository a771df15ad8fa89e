/** A printer from syntax trees back to token sequences, the partner of the
    parser: every compound expression is written inside its own parentheses,
    which the grammar drops again, so precedence and associativity never
    decide how a printed tree is read back. Only tokens the tokenizer can
    produce for the dialect are emitted. */
module Printer {
  import opened Wrappers
  import opened Chars
  import opened Tokens
  import A = Ast

  const LParen := Token(OpenParen, "(")
  const RParen := Token(CloseParen, ")")
  const Semi := Token(Semicolon, ";")
  const CommaToken := Token(Comma, ",")

  /** The kinds a printed expression can start with: `(` or a one-token
      operand. */
  predicate StartsOperand(k: Kind) {
    k == OpenParen || k == IDENTIFIER || k == KwThis || k == NUMBER || k == STRING
    || k == KwTrue || k == KwFalse || k == KwNull || k == BOOLEAN || k == NULL
  }

  function DigitChar(n: nat): char
    requires n < 10
  {
    (('0' as int) + n) as char
  }

  /** The decimal digits of `n`, without leading zeros. */
  function DecimalDigits(n: nat): (s: string)
    ensures IsDigits(s)
  {
    if n < 10 then [DigitChar(n)] else DecimalDigits(n / 10) + [DigitChar(n % 10)]
  }

  /** A string lexeme whose contents are `v`, quoted with a quote `v` does
      not contain. */
  function Quote(v: string): string
    requires A.Quotable(v)
  {
    var q := if '"' !in v then '"' else '\'';
    [q] + v + [q]
  }

  /** The quoted lexeme is one the tokenizer's string rules accept, and its
      contents are exactly `v`. */
  lemma QuoteLexeme(v: string)
    requires A.Quotable(v)
    ensures IsStringLexeme(Quote(v)) && Quote(v)[1..|Quote(v)| - 1] == v
  {
    var s := Quote(v);
    assert s[1..|s| - 1] == v;
  }

  function AssignmentKind(op: string): Kind {
    if op == "=" then SIMPLE_ASSIGN else COMPLEX_ASSIGN
  }

  function LogicalKind(op: string): Kind {
    if op == "||" then LOGICAL_OR else LOGICAL_AND
  }

  function BinaryKind(op: string): Kind {
    if op in A.EqualityOperators then EQUALITY_OPERATOR
    else if op in A.RelationalOperators then RELATIONAL_OPERATOR
    else if op in A.AdditiveOperators then ADDITIVE_OPERATOR
    else MULTIPLICATIVE_OPERATOR
  }

  function UnaryKind(op: string): Kind {
    if op == "!" then LOGICAL_NOT else ADDITIVE_OPERATOR
  }

  function BooleanToken(d: Dialect, b: bool): Token {
    var text := if b then "true" else "false";
    match d
    case Src => Token(if b then KwTrue else KwFalse, text)
    case Web => Token(BOOLEAN, text)
  }

  function NullToken(d: Dialect): Token {
    match d
    case Src => Token(KwNull, "null")
    case Web => Token(NULL, "null")
  }

  /** The tokens of an expression: one token for an operand, a parenthesised
      group for everything else. */
  function PrintExpr(d: Dialect, e: A.Expr): (r: seq<Token>)
    ensures |r| > 0
    decreases e
  {
    match e
    case AssignmentExpression(op, l, r) =>
      [LParen] + PrintExpr(d, l) + [Token(AssignmentKind(op), op)] + PrintExpr(d, r) + [RParen]
    case LogicalExpression(op, l, r) =>
      [LParen] + PrintExpr(d, l) + [Token(LogicalKind(op), op)] + PrintExpr(d, r) + [RParen]
    case BinaryExpression(op, l, r) =>
      [LParen] + PrintExpr(d, l) + [Token(BinaryKind(op), op)] + PrintExpr(d, r) + [RParen]
    case UnaryExpression(op, a) =>
      [LParen, Token(UnaryKind(op), op)] + PrintExpr(d, a) + [RParen]
    case CallExpression(callee, args) =>
      [LParen] + PrintExpr(d, callee) + [LParen] + PrintArguments(d, args) + [RParen, RParen]
    case MemberExpression(computed, o, p) =>
      if computed then
        [LParen] + PrintExpr(d, o) + [Token(OpenBracket, "[")] + PrintExpr(d, p)
        + [Token(CloseBracket, "]"), RParen]
      else
        [LParen] + PrintExpr(d, o) + [Token(Dot, ".")] + PrintExpr(d, p) + [RParen]
    case Identifier(name) => [Token(IDENTIFIER, name)]
    case ThisExpression => [Token(KwThis, "this")]
    case NumericLiteral(n) => [Token(NUMBER, DecimalDigits(n))]
    case StringLiteral(v) =>
      if A.Quotable(v) then [Token(STRING, Quote(v))] else [Token(STRING, v)]
    case BooleanLiteral(b) => [BooleanToken(d, b)]
    case NullLiteral => [NullToken(d)]
  }

  /** A printed expression starts with `(` or with its one operand token. */
  lemma PrintExprStarts(d: Dialect, e: A.Expr)
    ensures StartsOperand(PrintExpr(d, e)[0].kind)
  {
    match e
    case Identifier(_) =>
    case ThisExpression =>
    case NumericLiteral(_) =>
    case StringLiteral(_) =>
    case BooleanLiteral(_) =>
    case NullLiteral =>
    case _ =>
  }

  /** A comma-separated argument list (without the parentheses). */
  function PrintArguments(d: Dialect, args: seq<A.Expr>): seq<Token>
    decreases args
  {
    if |args| == 0 then [] else PrintExpr(d, args[0]) + PrintMoreArguments(d, args[1..])
  }

  /** `, a` for every `a` in `args`. */
  function PrintMoreArguments(d: Dialect, args: seq<A.Expr>): seq<Token>
    decreases args
  {
    if |args| == 0 then [] else [CommaToken] + PrintExpr(d, args[0]) + PrintMoreArguments(d, args[1..])
  }

  /** `( test )`, the condition of an `if` or a `while`. */
  function PrintCondition(d: Dialect, test: A.Expr): seq<Token> {
    [LParen] + PrintExpr(d, test) + [RParen]
  }

  function PrintOptExpr(d: Dialect, e: Option<A.Expr>): seq<Token> {
    match e
    case None => []
    case Some(x) => PrintExpr(d, x)
  }

  function PrintDeclarator(d: Dialect, v: A.Declarator): seq<Token> {
    [Token(IDENTIFIER, v.id)]
    + (match v.init
       case None => []
       case Some(x) => [Token(SIMPLE_ASSIGN, "=")] + PrintExpr(d, x))
  }

  function PrintDeclarators(d: Dialect, vs: seq<A.Declarator>): seq<Token> {
    if |vs| == 0 then [] else PrintDeclarator(d, vs[0]) + PrintMoreDeclarators(d, vs[1..])
  }

  function PrintMoreDeclarators(d: Dialect, vs: seq<A.Declarator>): seq<Token> {
    if |vs| == 0 then [] else [CommaToken] + PrintDeclarator(d, vs[0]) + PrintMoreDeclarators(d, vs[1..])
  }

  /** `( ps )`. */
  function PrintParameters(ps: seq<string>): seq<Token> {
    [LParen] + PrintParams(ps) + [RParen]
  }

  function PrintParams(ps: seq<string>): seq<Token> {
    if |ps| == 0 then [] else [Token(IDENTIFIER, ps[0])] + PrintMoreParams(ps[1..])
  }

  function PrintMoreParams(ps: seq<string>): seq<Token> {
    if |ps| == 0 then [] else [CommaToken, Token(IDENTIFIER, ps[0])] + PrintMoreParams(ps[1..])
  }

  /** The tokens of a statement. A statement never starts with `else` or
      `}`. */
  function PrintStmt(d: Dialect, s: A.Stmt): (r: seq<Token>)
    ensures |r| > 0 && r[0].kind != KwElse && r[0].kind != CloseBrace
    decreases s
  {
    match s
    case EmptyStatement => [Semi]
    case BlockStatement(body) => [Token(OpenBrace, "{")] + PrintStmts(d, body) + [Token(CloseBrace, "}")]
    case ExpressionStatement(e) => PrintExpr(d, e) + [Semi]
    case VariableDeclaration(kind, decls) =>
      [Token(DeclarationKeyword(d), kind)] + PrintDeclarators(d, decls) + [Semi]
    case IfStatement(test, c, alternate) =>
      [Token(KwIf, "if")] + PrintCondition(d, test) + PrintStmt(d, c) + PrintElse(d, alternate)
    case WhileStatement(test, body) =>
      [Token(KwWhile, "while")] + PrintCondition(d, test) + PrintStmt(d, body)
    case ForStatement(init, test, update, body) =>
      [Token(KwFor, "for"), LParen] + PrintForClauses(d, init, test, update) + PrintStmt(d, body)
    case FunctionDeclaration(id, params, body) =>
      [Token(KwFunction, "function"), Token(IDENTIFIER, id)] + PrintParameters(params) + PrintStmt(d, body)
    case ReturnStatement(argument) => [Token(KwReturn, "return")] + PrintOptExpr(d, argument) + [Semi]
    case ClassDeclaration(id, body) => [Token(KwClass, "class"), Token(IDENTIFIER, id)] + PrintStmt(d, body)
  }

  /** The `else` branch of an `if`, if any. */
  function PrintElse(d: Dialect, alternate: Option<A.Stmt>): seq<Token>
    decreases alternate, 0
  {
    match alternate
    case None => []
    case Some(a) => [Token(KwElse, "else")] + PrintStmt(d, a)
  }

  /** The clauses of a `for`, up to and including the `)`. */
  function PrintForClauses(d: Dialect, init: Option<A.Stmt>, test: Option<A.Expr>, update: Option<A.Expr>): seq<Token>
    decreases init, 1
  {
    PrintForInit(d, init) + PrintOptExpr(d, test) + [Semi] + PrintOptExpr(d, update) + [RParen]
  }

  /** The initialiser of a `for`, up to and including its `;`. */
  function PrintForInit(d: Dialect, init: Option<A.Stmt>): seq<Token>
    decreases init, 0
  {
    match init
    case None => [Semi]
    case Some(v) => PrintStmt(d, v)
  }

  function PrintStmts(d: Dialect, ss: seq<A.Stmt>): seq<Token>
    decreases ss
  {
    if |ss| == 0 then [] else PrintStmt(d, ss[0]) + PrintStmts(d, ss[1..])
  }

  function PrintProgram(d: Dialect, p: A.Program): seq<Token> {
    PrintStmts(d, p.body)
  }
}
