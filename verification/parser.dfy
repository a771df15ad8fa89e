/** The recursive-descent parsers of src/parser.js and parser-web/parser.js.

    The source keeps one lookahead token and pulls tokens from the tokenizer
    on demand. A parse can only succeed once the lookahead is `null`, so the
    whole input must tokenize; here the input is tokenized first and each rule
    reads the token sequence `ts` at index `pos` (the lookahead is `ts[pos]`,
    or `null` when `pos == |ts|`). Every rule returns the node it built and
    the index after it, or fails. The source's `SyntaxError`s, the `TypeError`
    of reading `.type` on a `null` lookahead and the stack overflow of its
    non-consuming default branch are the one `SyntaxError` outcome.

    The grammars of the two dialects differ only where a rule tests `d`.
    Where a rule has just tested the lookahead's type, its `_eat` of that
    type cannot fail and is written as taking `ts[pos]` and moving to `pos + 1`.
    Termination: every call back up the precedence chain follows an `_eat`,
    so (tokens left, rank of the rule) decreases. */
module Parser {
  import opened Wrappers
  import opened Chars
  import opened Tokens
  import A = Ast

  datatype Parsed<T> = Parsed(node: T, next: nat)

  type PResult<T> = Result<Parsed<T>, Error>

  // ---------------------------------------------------------------------------
  // Lookahead and `_eat`

  /** `this._lookahead !== null && this._lookahead.type === k`. */
  predicate LookaheadIs(ts: seq<Token>, pos: nat, k: Kind) {
    pos < |ts| && ts[pos].kind == k
  }

  /** `this._lookahead.type`, which throws on a `null` lookahead. */
  function LookaheadKind(ts: seq<Token>, pos: nat): (r: Result<Kind, Error>)
    ensures r.Ok? <==> pos < |ts|
    ensures r.Ok? ==> r.value == ts[pos].kind
  {
    if pos < |ts| then Ok(ts[pos].kind) else Err(SyntaxError)
  }

  /** `this._lookahead.type === k`, which throws on a `null` lookahead. */
  function Peek(ts: seq<Token>, pos: nat, k: Kind): (r: Result<bool, Error>)
    ensures r.Ok? <==> pos < |ts|
    ensures r.Ok? ==> (r.value <==> ts[pos].kind == k)
  {
    var kind :- LookaheadKind(ts, pos);
    Ok(kind == k)
  }

  /** `_eat(k)`: fails at end of input or on a lookahead of another kind;
      otherwise returns the lookahead and advances by exactly one token. */
  function Eat(ts: seq<Token>, pos: nat, k: Kind): (r: PResult<Token>)
    requires pos <= |ts|
    ensures r.Ok? <==> LookaheadIs(ts, pos, k)
    ensures r.Ok? ==> r.value == Parsed(ts[pos], pos + 1)
  {
    if pos == |ts| then Err(SyntaxError)
    else if ts[pos].kind != k then Err(SyntaxError)
    else Ok(Parsed(ts[pos], pos + 1))
  }

  // ---------------------------------------------------------------------------
  // Literals and identifiers

  function DigitValue(c: char): nat {
    if IsDigit(c) then (c as int) - ('0' as int) else 0
  }

  /** `Number(lexeme)` for a NUMBER lexeme (a run of decimal digits). */
  function DecimalValue(s: string): nat {
    if |s| == 0 then 0 else DecimalValue(s[..|s| - 1]) * 10 + DigitValue(s[|s| - 1])
  }

  /** `lexeme.slice(1, -1)`. */
  function Unquote(s: string): string {
    if |s| >= 2 then s[1..|s| - 1] else ""
  }

  /** `_isLiteral`. */
  predicate IsLiteralKind(d: Dialect, k: Kind) {
    match d
    case Src => k == NUMBER || k == STRING || k == KwTrue || k == KwFalse || k == KwNull
    case Web => k == NUMBER || k == STRING || k == BOOLEAN || k == NULL
  }

  /** `Literal()` with `NumericLiteral`, `StringLiteral`, `BooleanLiteral` and
      `NullLiteral`. */
  function Literal(d: Dialect, ts: seq<Token>, pos: nat): (r: PResult<A.Expr>)
    requires pos <= |ts|
    ensures r.Ok? <==> pos < |ts| && IsLiteralKind(d, ts[pos].kind)
    ensures r.Ok? ==> r.value.next == pos + 1
    ensures r.Ok? && AllValid(ts) ==> A.WfExpr(d, r.value.node)
  {
    var k :- LookaheadKind(ts, pos);
    var t := ts[pos];
    if k == NUMBER then
      Ok(Parsed(A.NumericLiteral(DecimalValue(t.text)), pos + 1))
    else if k == STRING then
      assert ValidToken(t) ==> A.Quotable(Unquote(t.text));
      Ok(Parsed(A.StringLiteral(Unquote(t.text)), pos + 1))
    else if d == Src && (k == KwTrue || k == KwFalse) then
      Ok(Parsed(A.BooleanLiteral(k == KwTrue), pos + 1))
    else if d == Src && k == KwNull then
      Ok(Parsed(A.NullLiteral, pos + 1))
    else if d == Web && k == BOOLEAN then
      Ok(Parsed(A.BooleanLiteral(t.text == "true"), pos + 1))
    else if d == Web && k == NULL then
      Ok(Parsed(A.NullLiteral, pos + 1))
    else
      Err(SyntaxError)  // "Literal: unexpected literal production"
  }

  /** `Identifier()`. */
  function Identifier(ts: seq<Token>, pos: nat): (r: PResult<A.Expr>)
    requires pos <= |ts|
    ensures r.Ok? <==> LookaheadIs(ts, pos, IDENTIFIER)
    ensures r.Ok? ==> r.value == Parsed(A.Identifier(ts[pos].text), pos + 1)
  {
    var Parsed(t, next) :- Eat(ts, pos, IDENTIFIER);
    Ok(Parsed(A.Identifier(t.text), next))
  }

  // ---------------------------------------------------------------------------
  // Expressions

  /** The binary levels, loosest first; `_LogicalExpression` builds the first
      two, `_BinaryExpression` the rest. */
  datatype Precedence = LogicalOr | LogicalAnd | Equality | Relational | Additive | Multiplicative

  function Rank(p: Precedence): nat {
    match p
    case LogicalOr => 6
    case LogicalAnd => 5
    case Equality => 4
    case Relational => 3
    case Additive => 2
    case Multiplicative => 1
  }

  function OperatorKind(p: Precedence): Kind {
    match p
    case LogicalOr => LOGICAL_OR
    case LogicalAnd => LOGICAL_AND
    case Equality => EQUALITY_OPERATOR
    case Relational => RELATIONAL_OPERATOR
    case Additive => ADDITIVE_OPERATOR
    case Multiplicative => MULTIPLICATIVE_OPERATOR
  }

  /** The next tighter binary level. */
  function Tighter(p: Precedence): Precedence
    requires p != Multiplicative
  {
    match p
    case LogicalOr => LogicalAnd
    case LogicalAnd => Equality
    case Equality => Relational
    case Relational => Additive
    case Additive => Multiplicative
  }

  function Combine(p: Precedence, op: string, left: A.Expr, right: A.Expr): A.Expr {
    if p == LogicalOr || p == LogicalAnd then A.LogicalExpression(op, left, right)
    else A.BinaryExpression(op, left, right)
  }

  /** `Expression()` and `AssignmentExpression()` (the former only calls the
      latter). Without an assignment operator after the left side the left
      side is returned unwrapped; otherwise the target is checked and the right
      side is a whole Expression, so assignment nests to the right. */
  function AssignmentExpression(d: Dialect, ts: seq<Token>, pos: nat): (r: PResult<A.Expr>)
    requires pos <= |ts|
    ensures r.Ok? ==> pos < r.value.next <= |ts|
    ensures r.Ok? && AllValid(ts) ==> A.WfExpr(d, r.value.node)
    decreases |ts| - pos, 20
  {
    var Parsed(left, p1) :- Binary(d, LogicalOr, ts, pos);
    var k :- LookaheadKind(ts, p1);
    if k != SIMPLE_ASSIGN && k != COMPLEX_ASSIGN then Ok(Parsed(left, p1))
    else
      var op := ts[p1];   // AssignmentOperator()
      if !A.IsAssignmentTarget(left) then Err(SyntaxError)
      else
        var Parsed(right, p2) :- AssignmentExpression(d, ts, p1 + 1);
        Ok(Parsed(A.AssignmentExpression(op.text, left, right), p2))
  }

  /** The operand rule of level `p`. */
  function Operand(d: Dialect, p: Precedence, ts: seq<Token>, pos: nat): (r: PResult<A.Expr>)
    requires pos <= |ts|
    ensures r.Ok? ==> pos < r.value.next <= |ts|
    ensures r.Ok? && AllValid(ts) ==> A.WfExpr(d, r.value.node)
    decreases |ts| - pos, 5 + 2 * Rank(p)
  {
    if p == Multiplicative then Unary(d, ts, pos) else Binary(d, Tighter(p), ts, pos)
  }

  /** `_LogicalExpression` / `_BinaryExpression`: one operand, then a left fold
      over `operator operand` pairs of this level. */
  function Binary(d: Dialect, p: Precedence, ts: seq<Token>, pos: nat): (r: PResult<A.Expr>)
    requires pos <= |ts|
    ensures r.Ok? ==> pos < r.value.next <= |ts|
    ensures r.Ok? && AllValid(ts) ==> A.WfExpr(d, r.value.node)
    decreases |ts| - pos, 6 + 2 * Rank(p)
  {
    var Parsed(left, p1) :- Operand(d, p, ts, pos);
    BinaryTail(d, p, left, ts, p1)
  }

  /** The `while` loop of `_BinaryExpression`, with `left` the tree so far. Src
      reads `this._lookahead.type` (throwing at end of input); Web first checks
      the lookahead for `null`. */
  function BinaryTail(d: Dialect, p: Precedence, left: A.Expr, ts: seq<Token>, pos: nat): (r: PResult<A.Expr>)
    requires pos <= |ts|
    ensures r.Ok? ==> pos <= r.value.next <= |ts|
    ensures r.Ok? && AllValid(ts) && A.WfExpr(d, left) ==> A.WfExpr(d, r.value.node)
    decreases |ts| - pos, 0
  {
    var more :- if d == Src then Peek(ts, pos, OperatorKind(p)) else Ok(LookaheadIs(ts, pos, OperatorKind(p)));
    if !more then Ok(Parsed(left, pos))
    else
      var op := ts[pos];
      var Parsed(right, p2) :- Operand(d, p, ts, pos + 1);
      BinaryTail(d, p, Combine(p, op.text, left, right), ts, p2)
  }

  /** `UnaryExpression()`: a `+`, `-` or `!` prefix applies to a further
      UnaryExpression, so prefixes nest. Web tests the operator for
      truthiness, so an empty lexeme (never produced by its tokenizer) would
      drop the prefix. */
  function Unary(d: Dialect, ts: seq<Token>, pos: nat): (r: PResult<A.Expr>)
    requires pos <= |ts|
    ensures r.Ok? ==> pos < r.value.next <= |ts|
    ensures r.Ok? && AllValid(ts) ==> A.WfExpr(d, r.value.node)
    decreases |ts| - pos, 6
  {
    var k :- LookaheadKind(ts, pos);
    if k == ADDITIVE_OPERATOR || k == LOGICAL_NOT then
      var op := ts[pos];
      if d == Web && op.text == "" then CallMember(d, ts, pos + 1)
      else
        var Parsed(argument, p2) :- Unary(d, ts, pos + 1);
        Ok(Parsed(A.UnaryExpression(op.text, argument), p2))
    else
      CallMember(d, ts, pos)
  }

  /** `LeftHandSideExpression()` = `CallMemberExpression()`: a member chain,
      then, if `(` follows, a chain of calls. */
  function CallMember(d: Dialect, ts: seq<Token>, pos: nat): (r: PResult<A.Expr>)
    requires pos <= |ts|
    ensures r.Ok? ==> pos < r.value.next <= |ts|
    ensures r.Ok? && AllValid(ts) ==> A.WfExpr(d, r.value.node)
    decreases |ts| - pos, 5
  {
    var Parsed(member, p1) :- Member(d, ts, pos);
    var isCall :- Peek(ts, p1, OpenParen);
    if isCall then CallTail(d, member, ts, p1) else Ok(Parsed(member, p1))
  }

  /** `_CallExpression(callee)`: arguments, then only further `(...)` calls. */
  function CallTail(d: Dialect, callee: A.Expr, ts: seq<Token>, pos: nat): (r: PResult<A.Expr>)
    requires pos <= |ts|
    ensures r.Ok? ==> pos < r.value.next <= |ts|
    ensures r.Ok? && AllValid(ts) && A.WfExpr(d, callee) ==> A.WfExpr(d, r.value.node)
    decreases |ts| - pos, 2
  {
    var Parsed(args, p1) :- Arguments(d, ts, pos);
    var call := A.CallExpression(callee, args);
    var more :- Peek(ts, p1, OpenParen);
    if more then CallTail(d, call, ts, p1) else Ok(Parsed(call, p1))
  }

  /** `Arguments()`: `(`, an ArgumentList unless `)` follows at once, `)`. */
  function Arguments(d: Dialect, ts: seq<Token>, pos: nat): (r: PResult<seq<A.Expr>>)
    requires pos <= |ts|
    ensures r.Ok? ==> pos + 2 <= r.value.next <= |ts|
    ensures r.Ok? && AllValid(ts) ==> forall a :: a in r.value.node ==> A.WfExpr(d, a)
    decreases |ts| - pos, 1
  {
    var Parsed(_, p1) :- Eat(ts, pos, OpenParen);
    var empty :- Peek(ts, p1, CloseParen);
    var Parsed(args, p2) :- if empty then Ok(Parsed([], p1)) else ArgumentList(d, ts, p1);
    var Parsed(_, p3) :- Eat(ts, p2, CloseParen);
    Ok(Parsed(args, p3))
  }

  /** `ArgumentList()`: comma-separated AssignmentExpressions. */
  function ArgumentList(d: Dialect, ts: seq<Token>, pos: nat): (r: PResult<seq<A.Expr>>)
    requires pos <= |ts|
    ensures r.Ok? ==> pos < r.value.next <= |ts| && |r.value.node| > 0
    ensures r.Ok? && AllValid(ts) ==> forall a :: a in r.value.node ==> A.WfExpr(d, a)
    decreases |ts| - pos, 21
  {
    var Parsed(first, p1) :- AssignmentExpression(d, ts, pos);
    ArgumentListTail(d, [first], ts, p1)
  }

  function ArgumentListTail(d: Dialect, args: seq<A.Expr>, ts: seq<Token>, pos: nat): (r: PResult<seq<A.Expr>>)
    requires pos <= |ts|
    ensures r.Ok? ==> pos <= r.value.next <= |ts| && |r.value.node| >= |args|
    ensures r.Ok? && AllValid(ts) && (forall a :: a in args ==> A.WfExpr(d, a)) ==>
      forall a :: a in r.value.node ==> A.WfExpr(d, a)
    decreases |ts| - pos, 0
  {
    var more :- Peek(ts, pos, Comma);
    if !more then Ok(Parsed(args, pos))
    else
      var Parsed(a, p2) :- AssignmentExpression(d, ts, pos + 1);
      ArgumentListTail(d, args + [a], ts, p2)
  }

  /** `MemberExpression()`: a PrimaryExpression, then a left fold over
      `.Identifier` (not computed) and `[Expression]` (computed). */
  function Member(d: Dialect, ts: seq<Token>, pos: nat): (r: PResult<A.Expr>)
    requires pos <= |ts|
    ensures r.Ok? ==> pos < r.value.next <= |ts|
    ensures r.Ok? && AllValid(ts) ==> A.WfExpr(d, r.value.node)
    decreases |ts| - pos, 4
  {
    var Parsed(obj, p1) :- Primary(d, ts, pos);
    MemberTail(d, obj, ts, p1)
  }

  /** The member loop. Web's body tests `.` and then `[` with two `if`s in one
      iteration, src uses `if`/`else`; both fold the same accessors in the same
      order and both read `.type` of a `null` lookahead after an accessor, so
      one definition serves both. */
  function MemberTail(d: Dialect, obj: A.Expr, ts: seq<Token>, pos: nat): (r: PResult<A.Expr>)
    requires pos <= |ts|
    ensures r.Ok? ==> pos <= r.value.next <= |ts|
    ensures r.Ok? && AllValid(ts) && A.WfExpr(d, obj) ==> A.WfExpr(d, r.value.node)
    decreases |ts| - pos, 0
  {
    var k :- LookaheadKind(ts, pos);
    if k == Dot then
      var p1 := pos + 1;
      var Parsed(property, p2) :- Identifier(ts, p1);
      assert AllValid(ts) ==> ValidToken(ts[p1]);
      assert AllValid(ts) && A.WfExpr(d, obj) ==> A.WfExpr(d, A.MemberExpression(false, obj, property));
      MemberTail(d, A.MemberExpression(false, obj, property), ts, p2)
    else if k == OpenBracket then
      var p1 := pos + 1;
      var Parsed(property, p2) :- AssignmentExpression(d, ts, p1);
      var Parsed(_, p3) :- Eat(ts, p2, CloseBracket);
      MemberTail(d, A.MemberExpression(true, obj, property), ts, p3)
    else
      Ok(Parsed(obj, pos))
  }

  /** `PrimaryExpression()`. Parentheses produce no node. `this` is a primary
      expression only in Web. Any other lookahead reaches the default branch,
      which calls LeftHandSideExpression again without consuming a token; the
      source recurses until the stack overflows, here it fails. */
  function Primary(d: Dialect, ts: seq<Token>, pos: nat): (r: PResult<A.Expr>)
    requires pos <= |ts|
    ensures r.Ok? ==> pos < r.value.next <= |ts|
    ensures r.Ok? && AllValid(ts) ==> A.WfExpr(d, r.value.node)
    decreases |ts| - pos, 3
  {
    var k :- LookaheadKind(ts, pos);
    if IsLiteralKind(d, k) then Literal(d, ts, pos)
    else if k == OpenParen then
      var Parsed(e, p2) :- AssignmentExpression(d, ts, pos + 1);
      var Parsed(_, p3) :- Eat(ts, p2, CloseParen);
      Ok(Parsed(e, p3))
    else if k == IDENTIFIER then
      assert AllValid(ts) ==> ValidToken(ts[pos]);
      Identifier(ts, pos)
    else if d == Web && k == KwThis then
      Ok(Parsed(A.ThisExpression, pos + 1))
    else
      Err(SyntaxError)
  }

  // ---------------------------------------------------------------------------
  // Statements

  /** `Program()`. */
  function Program(d: Dialect, ts: seq<Token>): (r: Result<A.Program, Error>)
    ensures r.Ok? ==> |r.value.body| > 0
    ensures r.Ok? && AllValid(ts) ==> A.WfProgram(d, r.value)
  {
    var Parsed(body, _) :- StatementList(d, ts, 0, None);
    Ok(A.Program(body))
  }

  /** `StatementList(stopLookahead)`: at least one Statement, then more until
      the input ends or the lookahead has the stop kind. */
  function StatementList(d: Dialect, ts: seq<Token>, pos: nat, stop: Option<Kind>): (r: PResult<seq<A.Stmt>>)
    requires pos <= |ts|
    ensures r.Ok? ==> pos < r.value.next <= |ts| && |r.value.node| > 0
    ensures r.Ok? ==> r.value.next == |ts| || (stop.Some? && LookaheadIs(ts, r.value.next, stop.value))
    ensures r.Ok? && AllValid(ts) ==> forall x :: x in r.value.node ==> A.WfStmt(d, x)
    decreases |ts| - pos, 12
  {
    var Parsed(first, p1) :- Statement(d, ts, pos);
    StatementListTail(d, stop, [first], ts, p1)
  }

  function StatementListTail(d: Dialect, stop: Option<Kind>, list: seq<A.Stmt>, ts: seq<Token>, pos: nat): (r: PResult<seq<A.Stmt>>)
    requires pos <= |ts|
    ensures r.Ok? ==> pos <= r.value.next <= |ts| && |r.value.node| >= |list|
    ensures r.Ok? ==> r.value.next == |ts| || (stop.Some? && LookaheadIs(ts, r.value.next, stop.value))
    ensures r.Ok? && AllValid(ts) && (forall x :: x in list ==> A.WfStmt(d, x)) ==>
      forall x :: x in r.value.node ==> A.WfStmt(d, x)
    decreases |ts| - pos, 11
  {
    if pos == |ts| || (stop.Some? && ts[pos].kind == stop.value) then Ok(Parsed(list, pos))
    else
      var Parsed(x, p1) :- Statement(d, ts, pos);
      StatementListTail(d, stop, list + [x], ts, p1)
  }

  /** `Statement()`: dispatch on the lookahead's type (throwing on `null`). An
      `else` is taken by the innermost open `if`, so a statement that ends in
      an `if` without `else` is never followed by `else`. The statements that
      end in a nested statement are dispatched here, the rest by
      SimpleStatement. */
  function Statement(d: Dialect, ts: seq<Token>, pos: nat): (r: PResult<A.Stmt>)
    requires pos <= |ts|
    ensures r.Ok? ==> pos < r.value.next <= |ts|
    ensures r.Ok? && A.OpenIf(r.value.node) ==> !LookaheadIs(ts, r.value.next, KwElse)
    ensures r.Ok? && AllValid(ts) ==> A.WfStmt(d, r.value.node)
    decreases |ts| - pos, 10
  {
    var k :- LookaheadKind(ts, pos);
    if k == KwIf then IfStatement(d, ts, pos)
    else if k == KwWhile then WhileStatement(d, ts, pos)
    else if d == Web && k == KwFor then ForStatement(ts, pos)
    else if k == KwFunction then FunctionDeclaration(d, ts, pos)
    else SimpleStatement(d, ts, pos)
  }

  /** The remaining cases of `Statement()`: none of these ends in an open
      `if`. */
  function SimpleStatement(d: Dialect, ts: seq<Token>, pos: nat): (r: PResult<A.Stmt>)
    requires pos <= |ts|
    ensures r.Ok? ==> pos < r.value.next <= |ts| && !A.OpenIf(r.value.node)
    ensures r.Ok? && AllValid(ts) ==> A.WfStmt(d, r.value.node)
    decreases |ts| - pos, 9
  {
    var k :- LookaheadKind(ts, pos);
    if k == Semicolon then EmptyStatement(ts, pos)
    else if k == OpenBrace then BlockStatement(d, ts, pos)
    else if k == DeclarationKeyword(d) then VariableStatement(d, ts, pos)
    else if k == KwReturn then ReturnStatement(d, ts, pos)
    else if d == Src && k == KwClass then ClassDeclaration(ts, pos)
    else ExpressionStatement(d, ts, pos)
  }

  /** `EmptyStatement()`. */
  function EmptyStatement(ts: seq<Token>, pos: nat): (r: PResult<A.Stmt>)
    requires pos <= |ts|
    ensures r.Ok? <==> LookaheadIs(ts, pos, Semicolon)
    ensures r.Ok? ==> r.value == Parsed(A.EmptyStatement, pos + 1)
  {
    if !LookaheadIs(ts, pos, Semicolon) then Err(SyntaxError)
    else Ok(Parsed(A.EmptyStatement, pos + 1))
  }

  /** `BlockStatement()`: `{`, a StatementList stopping at `}` unless `}`
      follows at once, `}`. */
  function BlockStatement(d: Dialect, ts: seq<Token>, pos: nat): (r: PResult<A.Stmt>)
    requires pos <= |ts|
    ensures r.Ok? ==> pos + 2 <= r.value.next <= |ts| && r.value.node.BlockStatement?
    ensures r.Ok? ==> ts[pos].kind == OpenBrace && ts[r.value.next - 1].kind == CloseBrace
    ensures r.Ok? && AllValid(ts) ==> A.WfStmt(d, r.value.node)
    decreases |ts| - pos, 1
  {
    if !LookaheadIs(ts, pos, OpenBrace) || pos + 1 == |ts| then Err(SyntaxError)
    else
      var Parsed(body, p2) :-
        if ts[pos + 1].kind == CloseBrace then Ok(Parsed([], pos + 1))
        else StatementList(d, ts, pos + 1, Some(CloseBrace));
      if !LookaheadIs(ts, p2, CloseBrace) then Err(SyntaxError)
      else Ok(Parsed(A.BlockStatement(body), p2 + 1))
  }

  /** `( Expression )`, the condition of an `if` or a `while`. */
  function ParenCondition(d: Dialect, ts: seq<Token>, pos: nat): (r: PResult<A.Expr>)
    requires pos <= |ts|
    ensures r.Ok? ==> pos + 2 < r.value.next <= |ts|
    ensures r.Ok? ==> ts[pos].kind == OpenParen && ts[r.value.next - 1].kind == CloseParen
    ensures r.Ok? && AllValid(ts) ==> A.WfExpr(d, r.value.node)
  {
    if !LookaheadIs(ts, pos, OpenParen) then Err(SyntaxError)
    else
      var Parsed(test, p2) :- AssignmentExpression(d, ts, pos + 1);
      if !LookaheadIs(ts, p2, CloseParen) then Err(SyntaxError)
      else Ok(Parsed(test, p2 + 1))
  }

  /** The optional `else` branch of an `if`: taken whenever `else` is the
      lookahead (a null lookahead means none), so an `else` always belongs
      to the nearest open `if`. */
  function ElseClause(d: Dialect, ts: seq<Token>, pos: nat): (r: PResult<Option<A.Stmt>>)
    requires pos <= |ts|
    ensures r.Ok? ==> pos <= r.value.next <= |ts|
    ensures r.Ok? ==> (r.value.node.Some? <==> LookaheadIs(ts, pos, KwElse))
    ensures r.Ok? && (r.value.node.None? || A.OpenIf(r.value.node.value)) ==> !LookaheadIs(ts, r.value.next, KwElse)
    ensures r.Ok? && AllValid(ts) && r.value.node.Some? ==> A.WfStmt(d, r.value.node.value)
    decreases |ts| - pos, 2
  {
    if LookaheadIs(ts, pos, KwElse) then
      var Parsed(alternate, p2) :- Statement(d, ts, pos + 1);
      Ok(Parsed(Some(alternate), p2))
    else Ok(Parsed(None, pos))
  }

  /** `IfStatement()`: the `else` test is null-safe, so an `if` may end the
      input. */
  function IfStatement(d: Dialect, ts: seq<Token>, pos: nat): (r: PResult<A.Stmt>)
    requires pos <= |ts|
    ensures r.Ok? ==> pos < r.value.next <= |ts| && r.value.node.IfStatement?
    ensures r.Ok? && A.OpenIf(r.value.node) ==> !LookaheadIs(ts, r.value.next, KwElse)
    ensures r.Ok? && AllValid(ts) ==> A.WfStmt(d, r.value.node)
    decreases |ts| - pos, 3
  {
    if !LookaheadIs(ts, pos, KwIf) then Err(SyntaxError)
    else
      var Parsed(test, p1) :- ParenCondition(d, ts, pos + 1);
      var Parsed(consequent, p2) :- Statement(d, ts, p1);
      var Parsed(alternate, p3) :- ElseClause(d, ts, p2);
      Ok(Parsed(A.IfStatement(test, consequent, alternate), p3))
  }

  /** `WhileStatement()`. */
  function WhileStatement(d: Dialect, ts: seq<Token>, pos: nat): (r: PResult<A.Stmt>)
    requires pos <= |ts|
    ensures r.Ok? ==> pos < r.value.next <= |ts| && r.value.node.WhileStatement?
    ensures r.Ok? && A.OpenIf(r.value.node) ==> !LookaheadIs(ts, r.value.next, KwElse)
    ensures r.Ok? && AllValid(ts) ==> A.WfStmt(d, r.value.node)
    decreases |ts| - pos, 1
  {
    if !LookaheadIs(ts, pos, KwWhile) then Err(SyntaxError)
    else
      var Parsed(test, p1) :- ParenCondition(d, ts, pos + 1);
      var Parsed(body, p2) :- Statement(d, ts, p1);
      Ok(Parsed(A.WhileStatement(test, body), p2))
  }

  /** An optional expression: none when `absent`, else an Expression. */
  function OptionalExpression(d: Dialect, ts: seq<Token>, pos: nat, absent: bool): (r: PResult<Option<A.Expr>>)
    requires pos <= |ts|
    ensures r.Ok? ==> pos <= r.value.next <= |ts| && (r.value.node.None? <==> absent)
    ensures r.Ok? && absent ==> r.value.next == pos
    ensures r.Ok? && AllValid(ts) ==> A.WfOptExpr(d, r.value.node)
  {
    if absent then Ok(Parsed(None, pos))
    else
      var Parsed(e, p1) :- AssignmentExpression(d, ts, pos);
      Ok(Parsed(Some(e), p1))
  }

  /** Web `forStatement()`'s initialiser: none (the `;` is eaten) when `;`
      follows, otherwise a whole VariableStatement, which eats its own `;`. */
  function ForInit(ts: seq<Token>, pos: nat): (r: PResult<Option<A.Stmt>>)
    requires pos <= |ts|
    ensures r.Ok? ==> pos < r.value.next <= |ts| && ts[r.value.next - 1].kind == Semicolon
    ensures r.Ok? && r.value.node.Some? ==> r.value.node.value.VariableDeclaration?
    ensures r.Ok? && AllValid(ts) && r.value.node.Some? ==> A.WfStmt(Web, r.value.node.value)
  {
    if pos == |ts| then Err(SyntaxError)
    else if ts[pos].kind == Semicolon then Ok(Parsed(None, pos + 1))
    else
      var Parsed(v, p1) :- VariableStatement(Web, ts, pos);
      Ok(Parsed(Some(v), p1))
  }

  /** The three clauses of a Web `for`, from just after `(` up to and
      including the `)`; each clause may be empty. */
  function ForClauses(ts: seq<Token>, pos: nat): (r: PResult<(Option<A.Stmt>, Option<A.Expr>, Option<A.Expr>)>)
    requires pos <= |ts|
    ensures r.Ok? ==> pos < r.value.next <= |ts|
    ensures r.Ok? && r.value.node.0.Some? ==> r.value.node.0.value.VariableDeclaration?
    ensures r.Ok? && AllValid(ts) ==>
      && (r.value.node.0.Some? ==> A.WfStmt(Web, r.value.node.0.value))
      && A.WfOptExpr(Web, r.value.node.1) && A.WfOptExpr(Web, r.value.node.2)
  {
    var Parsed(init, p1) :- ForInit(ts, pos);
    if p1 == |ts| then Err(SyntaxError)
    else
      var Parsed(test, p2) :- OptionalExpression(Web, ts, p1, ts[p1].kind == Semicolon);
      if !LookaheadIs(ts, p2, Semicolon) || p2 + 1 == |ts| then Err(SyntaxError)
      else
        var Parsed(update, p3) :- OptionalExpression(Web, ts, p2 + 1, ts[p2 + 1].kind == CloseParen);
        if !LookaheadIs(ts, p3, CloseParen) then Err(SyntaxError)
        else Ok(Parsed((init, test, update), p3 + 1))
  }

  /** Web `forStatement()`. */
  function ForStatement(ts: seq<Token>, pos: nat): (r: PResult<A.Stmt>)
    requires pos <= |ts|
    ensures r.Ok? ==> pos < r.value.next <= |ts| && r.value.node.ForStatement?
    ensures r.Ok? && A.OpenIf(r.value.node) ==> !LookaheadIs(ts, r.value.next, KwElse)
    ensures r.Ok? && AllValid(ts) ==> A.WfStmt(Web, r.value.node)
    decreases |ts| - pos, 1
  {
    if !LookaheadIs(ts, pos, KwFor) || !LookaheadIs(ts, pos + 1, OpenParen) then Err(SyntaxError)
    else
      var Parsed(clauses, p1) :- ForClauses(ts, pos + 2);
      var Parsed(body, p2) :- Statement(Web, ts, p1);
      Ok(Parsed(A.ForStatement(clauses.0, clauses.1, clauses.2, body), p2))
  }

  /** `FormalParameterList()`: comma-separated Identifiers. */
  function FormalParameterList(ts: seq<Token>, pos: nat): (r: PResult<seq<string>>)
    requires pos <= |ts|
    ensures r.Ok? ==> pos < r.value.next <= |ts| && |r.value.node| > 0
    ensures r.Ok? && AllValid(ts) ==> forall x :: x in r.value.node ==> IsName(x)
  {
    var Parsed(id, p1) :- Identifier(ts, pos);
    assert AllValid(ts) ==> ValidToken(ts[pos]);
    FormalParameterTail([id.name], ts, p1)
  }

  function FormalParameterTail(params: seq<string>, ts: seq<Token>, pos: nat): (r: PResult<seq<string>>)
    requires pos <= |ts|
    ensures r.Ok? ==> pos <= r.value.next <= |ts| && |r.value.node| >= |params|
    ensures r.Ok? && AllValid(ts) && (forall x :: x in params ==> IsName(x)) ==>
      forall x :: x in r.value.node ==> IsName(x)
    decreases |ts| - pos
  {
    if pos == |ts| then Err(SyntaxError)
    else if ts[pos].kind != Comma then Ok(Parsed(params, pos))
    else
      var Parsed(id, p1) :- Identifier(ts, pos + 1);
      assert AllValid(ts) ==> ValidToken(ts[pos + 1]);
      FormalParameterTail(params + [id.name], ts, p1)
  }

  /** The `( FormalParameterList )` part of a function declaration; the list
      is empty when `)` follows `(` at once. */
  function Parameters(ts: seq<Token>, pos: nat): (r: PResult<seq<string>>)
    requires pos <= |ts|
    ensures r.Ok? ==> pos + 2 <= r.value.next <= |ts|
    ensures r.Ok? && AllValid(ts) ==> forall x :: x in r.value.node ==> IsName(x)
  {
    if !LookaheadIs(ts, pos, OpenParen) || pos + 1 == |ts| then Err(SyntaxError)
    else
      var Parsed(params, p2) :-
        if ts[pos + 1].kind == CloseParen then Ok(Parsed([], pos + 1))
        else FormalParameterList(ts, pos + 1);
      if !LookaheadIs(ts, p2, CloseParen) then Err(SyntaxError)
      else Ok(Parsed(params, p2 + 1))
  }

  /** `FunctionDeclarationStatement()` / `functionStatement()`: the body is a
      BlockStatement in Src and any Statement in Web. */
  function FunctionDeclaration(d: Dialect, ts: seq<Token>, pos: nat): (r: PResult<A.Stmt>)
    requires pos <= |ts|
    ensures r.Ok? ==> pos < r.value.next <= |ts| && r.value.node.FunctionDeclaration?
    ensures r.Ok? && A.OpenIf(r.value.node) ==> !LookaheadIs(ts, r.value.next, KwElse)
    ensures r.Ok? && AllValid(ts) ==> A.WfStmt(d, r.value.node)
    decreases |ts| - pos, 1
  {
    if !LookaheadIs(ts, pos, KwFunction) then Err(SyntaxError)
    else
      var Parsed(id, p2) :- Identifier(ts, pos + 1);
      assert AllValid(ts) ==> ValidToken(ts[pos + 1]);
      var Parsed(params, p3) :- Parameters(ts, p2);
      var Parsed(body, p4) :- FunctionBody(d, ts, p3);
      Ok(Parsed(A.FunctionDeclaration(id.name, params, body), p4))
  }

  /** A function's body: a BlockStatement in Src, any Statement in Web. */
  function FunctionBody(d: Dialect, ts: seq<Token>, pos: nat): (r: PResult<A.Stmt>)
    requires pos <= |ts|
    ensures r.Ok? ==> pos < r.value.next <= |ts|
    ensures r.Ok? && d == Src ==> r.value.node.BlockStatement?
    ensures r.Ok? && A.OpenIf(r.value.node) ==> !LookaheadIs(ts, r.value.next, KwElse)
    ensures r.Ok? && AllValid(ts) ==> A.WfStmt(d, r.value.node)
    decreases |ts| - pos, 13
  {
    if d == Src then BlockStatement(d, ts, pos) else Statement(d, ts, pos)
  }

  /** `ReturnStatement()`: Src always parses an argument; Web has none when
      `;` follows. */
  function ReturnStatement(d: Dialect, ts: seq<Token>, pos: nat): (r: PResult<A.Stmt>)
    requires pos <= |ts|
    ensures r.Ok? ==> pos < r.value.next <= |ts| && r.value.node.ReturnStatement?
    ensures r.Ok? && AllValid(ts) ==> A.WfStmt(d, r.value.node)
  {
    if !LookaheadIs(ts, pos, KwReturn) || (d == Web && pos + 1 == |ts|) then Err(SyntaxError)
    else
      var absent := d == Web && ts[pos + 1].kind == Semicolon;
      var Parsed(argument, p2) :- OptionalExpression(d, ts, pos + 1, absent);
      if !LookaheadIs(ts, p2, Semicolon) then Err(SyntaxError)
      else Ok(Parsed(A.ReturnStatement(argument), p2 + 1))
  }

  /** Src `ClassDeclaration()`: `class`, an Identifier, a BlockStatement. */
  function ClassDeclaration(ts: seq<Token>, pos: nat): (r: PResult<A.Stmt>)
    requires pos <= |ts|
    ensures r.Ok? ==> pos < r.value.next <= |ts| && r.value.node.ClassDeclaration?
    ensures r.Ok? && AllValid(ts) ==> A.WfStmt(Src, r.value.node)
    decreases |ts| - pos, 1
  {
    if !LookaheadIs(ts, pos, KwClass) then Err(SyntaxError)
    else
      var Parsed(id, p2) :- Identifier(ts, pos + 1);
      assert AllValid(ts) ==> ValidToken(ts[pos + 1]);
      var Parsed(body, p3) :- BlockStatement(Src, ts, p2);
      Ok(Parsed(A.ClassDeclaration(id.name, body), p3))
  }

  /** `VariableStatement()`: the declaration keyword, a non-empty
      VariableDeclarationList, `;`. */
  function VariableStatement(d: Dialect, ts: seq<Token>, pos: nat): (r: PResult<A.Stmt>)
    requires pos <= |ts|
    ensures r.Ok? ==> pos < r.value.next <= |ts| && r.value.node.VariableDeclaration?
    ensures r.Ok? ==> ts[r.value.next - 1].kind == Semicolon
    ensures r.Ok? && AllValid(ts) ==> A.WfStmt(d, r.value.node)
  {
    if !LookaheadIs(ts, pos, DeclarationKeyword(d)) then Err(SyntaxError)
    else
      var kind := ts[pos].text;
      assert AllValid(ts) ==> kind in A.DeclarationKinds by {
        if AllValid(ts) { assert ValidToken(ts[pos]); }
      }
      var Parsed(declarations, p2) :- VariableDeclarationList(d, ts, pos + 1);
      if !LookaheadIs(ts, p2, Semicolon) then Err(SyntaxError)
      else Ok(Parsed(A.VariableDeclaration(kind, declarations), p2 + 1))
  }

  function VariableDeclarationList(d: Dialect, ts: seq<Token>, pos: nat): (r: PResult<seq<A.Declarator>>)
    requires pos <= |ts|
    ensures r.Ok? ==> pos < r.value.next <= |ts| && |r.value.node| > 0
    ensures r.Ok? && AllValid(ts) ==> forall v :: v in r.value.node ==> A.WfDeclarator(d, v)
  {
    var Parsed(first, p1) :- VariableDeclarator(d, ts, pos);
    VariableDeclarationTail(d, [first], ts, p1)
  }

  function VariableDeclarationTail(d: Dialect, list: seq<A.Declarator>, ts: seq<Token>, pos: nat): (r: PResult<seq<A.Declarator>>)
    requires pos <= |ts|
    ensures r.Ok? ==> pos <= r.value.next <= |ts| && |r.value.node| >= |list|
    ensures r.Ok? && AllValid(ts) && (forall v :: v in list ==> A.WfDeclarator(d, v)) ==>
      forall v :: v in r.value.node ==> A.WfDeclarator(d, v)
    decreases |ts| - pos
  {
    if pos == |ts| then Err(SyntaxError)
    else if ts[pos].kind != Comma then Ok(Parsed(list, pos))
    else
      var Parsed(v, p1) :- VariableDeclarator(d, ts, pos + 1);
      VariableDeclarationTail(d, list + [v], ts, p1)
  }

  /** `VariableDeclaration()` (a `VariableDeclarator` node): an Identifier,
      then an initialiser `= AssignmentExpression` unless `;` or `,` follows.
      Anything else must be `=`. */
  function VariableDeclarator(d: Dialect, ts: seq<Token>, pos: nat): (r: PResult<A.Declarator>)
    requires pos <= |ts|
    ensures r.Ok? ==> pos < r.value.next <= |ts|
    ensures r.Ok? && AllValid(ts) ==> A.WfDeclarator(d, r.value.node)
  {
    var Parsed(id, p1) :- Identifier(ts, pos);
    assert AllValid(ts) ==> ValidToken(ts[pos]);
    if p1 == |ts| then Err(SyntaxError)
    else if ts[p1].kind == Semicolon || ts[p1].kind == Comma then Ok(Parsed(A.VariableDeclarator(id.name, None), p1))
    else if ts[p1].kind != SIMPLE_ASSIGN then Err(SyntaxError)
    else
      var Parsed(init, p3) :- AssignmentExpression(d, ts, p1 + 1);
      Ok(Parsed(A.VariableDeclarator(id.name, Some(init)), p3))
  }

  /** `ExpressionStatement()`: an Expression, then `;`. */
  function ExpressionStatement(d: Dialect, ts: seq<Token>, pos: nat): (r: PResult<A.Stmt>)
    requires pos <= |ts|
    ensures r.Ok? ==> pos < r.value.next <= |ts| && r.value.node.ExpressionStatement?
    ensures r.Ok? && AllValid(ts) ==> A.WfStmt(d, r.value.node)
  {
    var Parsed(e, p1) :- AssignmentExpression(d, ts, pos);
    if !LookaheadIs(ts, p1, Semicolon) then Err(SyntaxError)
    else Ok(Parsed(A.ExpressionStatement(e), p1 + 1))
  }
}
