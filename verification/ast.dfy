/** The syntax tree both parsers build. One constructor per `type` string of the
    source's plain records. Where two records use one field name for values of
    different types, Dafny needs distinct names; the source's field name is
    noted beside the renamed field. `Identifier` records in identifier-only
    positions (`id`, `params`) are kept as their `name`. */
module Ast {
  import opened Wrappers
  import opened Chars
  import opened Tokens

  datatype Program = Program(body: seq<Stmt>)

  datatype Stmt =
    | EmptyStatement
    | BlockStatement(statements: seq<Stmt>)                   // `body`
    | ExpressionStatement(expression: Expr)
    | VariableDeclaration(kind: string, declarations: seq<Declarator>)
    | IfStatement(test: Expr, consequent: Stmt, alternate: Option<Stmt>)
    | WhileStatement(test: Expr, body: Stmt)
    | ForStatement(init: Option<Stmt>, condition: Option<Expr>, update: Option<Expr>, body: Stmt)
                                                              // `condition` is `test`
    | FunctionDeclaration(id: string, params: seq<string>, body: Stmt)
    | ReturnStatement(argument: Option<Expr>)
    | ClassDeclaration(id: string, body: Stmt)

  datatype Declarator = VariableDeclarator(id: string, init: Option<Expr>)

  datatype Expr =
    | AssignmentExpression(operator: string, left: Expr, right: Expr)
    | LogicalExpression(operator: string, left: Expr, right: Expr)
    | BinaryExpression(operator: string, left: Expr, right: Expr)
    | UnaryExpression(operator: string, argument: Expr)
    | CallExpression(callee: Expr, arguments: seq<Expr>)
    | MemberExpression(computed: bool, obj: Expr, property: Expr)   // `object`
    | Identifier(name: string)
    | ThisExpression
    | NumericLiteral(number: nat)                                   // `value`
    | StringLiteral(chars: string)                                  // `value`
    | BooleanLiteral(truth: bool)                                   // `value`
    | NullLiteral

  const AssignmentOperators: set<string> := {"=", "+=", "-=", "*=", "/="}
  const LogicalOperators: set<string> := {"||", "&&"}
  const EqualityOperators: set<string> := {"==", "===", "!=", "!=="}
  const RelationalOperators: set<string> := {"<", ">", "<=", ">="}
  const AdditiveOperators: set<string> := {"+", "-"}
  const MultiplicativeOperators: set<string> := {"*", "/"}
  const UnaryOperators: set<string> := {"+", "-", "!"}
  const DeclarationKinds: set<string> := {"let", "var", "const"}

  predicate BinaryOperator(op: string) {
    op in EqualityOperators || op in RelationalOperators || op in AdditiveOperators
    || op in MultiplicativeOperators
  }

  /** `_checkValidAssignmentTarget`'s test. */
  predicate IsAssignmentTarget(e: Expr) {
    e.Identifier? || e.MemberExpression?
  }

  /** A string literal's value can be written between one of the two quotes. */
  predicate Quotable(v: string) {
    '"' !in v || '\'' !in v
  }

  /** The statement ends in an `if` without `else`: an `else` right after it would
      belong to that inner `if`. */
  predicate OpenIf(s: Stmt) {
    match s
    case IfStatement(_, _, alternate) =>
      (match alternate
       case None => true
       case Some(a) => OpenIf(a))
    case WhileStatement(_, body) => OpenIf(body)
    case ForStatement(_, _, _, body) => OpenIf(body)
    case FunctionDeclaration(_, _, body) => OpenIf(body)
    case _ => false
  }

  /** The trees a dialect's grammar can describe. */
  predicate WfExpr(d: Dialect, e: Expr) {
    match e
    case AssignmentExpression(op, l, r) =>
      op in AssignmentOperators && IsAssignmentTarget(l) && WfExpr(d, l) && WfExpr(d, r)
    case LogicalExpression(op, l, r) => op in LogicalOperators && WfExpr(d, l) && WfExpr(d, r)
    case BinaryExpression(op, l, r) => BinaryOperator(op) && WfExpr(d, l) && WfExpr(d, r)
    case UnaryExpression(op, a) => op in UnaryOperators && WfExpr(d, a)
    case CallExpression(callee, args) => WfExpr(d, callee) && forall a :: a in args ==> WfExpr(d, a)
    case MemberExpression(computed, o, p) =>
      WfExpr(d, o) && WfExpr(d, p) && (!computed ==> p.Identifier?)
    case Identifier(name) => IsName(name)
    case ThisExpression => d == Web
    case NumericLiteral(_) => true
    case StringLiteral(v) => Quotable(v)
    case BooleanLiteral(_) => true
    case NullLiteral => true
  }

  predicate WfOptExpr(d: Dialect, e: Option<Expr>) {
    match e
    case None => true
    case Some(x) => WfExpr(d, x)
  }

  predicate WfDeclarator(d: Dialect, v: Declarator) {
    IsName(v.id) && WfOptExpr(d, v.init)
  }

  predicate WfStmt(d: Dialect, s: Stmt)
    decreases s
  {
    match s
    case EmptyStatement => true
    case BlockStatement(body) => forall x :: x in body ==> WfStmt(d, x)
    case ExpressionStatement(e) => WfExpr(d, e)
    case VariableDeclaration(kind, decls) =>
      kind in DeclarationKinds && |decls| > 0 && forall v :: v in decls ==> WfDeclarator(d, v)
    case IfStatement(test, c, alternate) =>
      && WfExpr(d, test) && WfStmt(d, c)
      && (match alternate
          case None => true
          case Some(a) => WfStmt(d, a) && !OpenIf(c))
    case WhileStatement(test, body) => WfExpr(d, test) && WfStmt(d, body)
    case ForStatement(init, test, update, body) =>
      d == Web && WfForInit(d, init) && WfOptExpr(d, test) && WfOptExpr(d, update) && WfStmt(d, body)
    case FunctionDeclaration(id, params, body) =>
      && IsName(id) && (forall p :: p in params ==> IsName(p))
      && WfStmt(d, body) && (d == Src ==> body.BlockStatement?)
    case ReturnStatement(argument) =>
      (d == Src ==> argument.Some?) && WfOptExpr(d, argument)
    case ClassDeclaration(id, body) =>
      d == Src && IsName(id) && body.BlockStatement? && WfStmt(d, body)
  }

  /** The initialiser of a `for`: none, or a variable declaration. */
  predicate WfForInit(d: Dialect, init: Option<Stmt>)
    decreases init, 0
  {
    match init
    case None => true
    case Some(i) => i.VariableDeclaration? && WfStmt(d, i)
  }

  predicate WfProgram(d: Dialect, p: Program) {
    |p.body| > 0 && forall s :: s in p.body ==> WfStmt(d, s)
  }
}
