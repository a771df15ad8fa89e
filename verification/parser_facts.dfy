/** What the parsers of src/parser.js and parser-web/parser.js build for
    short inputs: the precedence chain's associativity and binding order, the
    right nesting and target check of assignment, nested prefixes,
    parentheses, call and member chains, and the statements whose shape
    depends on a single lookahead token. Each fact holds in both dialects
    unless it names one. */
module ParserFacts {
  import opened Wrappers
  import opened Tokens
  import A = Ast
  import opened Parser
  import opened RoundTrip

  // ---------------------------------------------------------------------------
  // Operands and the end of an expression

  /** A token that continues none of the rules of the expression chain: `;`,
      `,`, `)`, `]`, `}` and every keyword. An expression ends before it. */
  predicate Ends(k: Kind) {
    ContinueLevel(k) == 11
  }

  /** `ts[i]` alone is an operand: PrimaryExpression reads `a` from it and
      stops right after it (a literal, an identifier, Web's `this`). The
      delay `k` keeps PrimaryExpression out of the proofs that only pass
      such a fact along; `AtomIntro` and `AtomElim` state what it means. */
  predicate Atom(d: Dialect, ts: seq<Token>, i: nat, a: A.Expr, k: Delay := Later(Later(Now))) {
    match k
    case Now => i < |ts| && Primary(d, ts, i) == Ok(Parsed(a, i + 1))
    case Later(j) => Atom(d, ts, i, a, j)
  }

  lemma AtomIntro(d: Dialect, ts: seq<Token>, i: nat, a: A.Expr)
    requires i < |ts| && Primary(d, ts, i) == Ok(Parsed(a, i + 1))
    ensures Atom(d, ts, i, a)
  {
    assert Atom(d, ts, i, a, Later(Now)) == Atom(d, ts, i, a, Now);
  }

  lemma AtomElim(d: Dialect, ts: seq<Token>, i: nat, a: A.Expr)
    requires Atom(d, ts, i, a)
    ensures i < |ts| && Primary(d, ts, i) == Ok(Parsed(a, i + 1))
  {
    assert Atom(d, ts, i, a, Later(Now)) == Atom(d, ts, i, a, Now);
  }

  /** A one-token operand is what every rule of the chain up to `n` reads,
      as long as the next token continues none of them. */
  lemma AtomAt(d: Dialect, n: nat, ts: seq<Token>, i: nat, a: A.Expr)
    requires n <= 10 && Atom(d, ts, i, a) && i + 1 < |ts| && n < ContinueLevel(ts[i + 1].kind)
    ensures ParseAt(d, n, ts, i) == Ok(Parsed(a, i + 1))
  {
    AtomElim(d, ts, i, a);
    PrimaryNotPrefix(d, ts, i);
    Climb(d, 0, n, ts, i, a, i + 1);
  }

  /** PrimaryExpression never starts at a prefix operator. */
  lemma PrimaryNotPrefix(d: Dialect, ts: seq<Token>, i: nat)
    requires i < |ts| && Primary(d, ts, i).Ok?
    ensures !IsPrefixOperator(ts[i].kind)
  {
  }

  lemma AtomOperand(d: Dialect, p: Precedence, ts: seq<Token>, i: nat, a: A.Expr)
    requires Atom(d, ts, i, a) && i + 1 < |ts| && LevelOf(p) <= ContinueLevel(ts[i + 1].kind)
    ensures Operand(d, p, ts, i) == Ok(Parsed(a, i + 1))
  {
    OperandIsBelow(d, p, ts, i);
    AtomAt(d, LevelOf(p) - 1, ts, i, a);
  }

  /** A PrimaryExpression followed by a token that ends the expression is
      the whole Expression. */
  lemma PrimaryToExpression(d: Dialect, ts: seq<Token>, pos: nat, e: A.Expr, end: nat)
    requires pos < end < |ts| && Primary(d, ts, pos) == Ok(Parsed(e, end)) && Ends(ts[end].kind)
    ensures AssignmentExpression(d, ts, pos) == Ok(Parsed(e, end))
  {
    PrimaryNotPrefix(d, ts, pos);
    assert ParseAt(d, 0, ts, pos) == Primary(d, ts, pos);
    Climb(d, 0, 10, ts, pos, e, end);
    assert ParseAt(d, 10, ts, pos) == AssignmentExpression(d, ts, pos);
  }

  /** A one-token operand before an assignment operator is the left side
      the LogicalOR level hands to AssignmentExpression. */
  lemma AtomBeforeAssignment(d: Dialect, ts: seq<Token>, i: nat, a: A.Expr)
    requires Atom(d, ts, i, a) && i + 1 < |ts| && ContinueLevel(ts[i + 1].kind) >= 10
    ensures Binary(d, LogicalOr, ts, i) == Ok(Parsed(a, i + 1))
  {
    AtomAt(d, 9, ts, i, a);
    assert ParseAt(d, 9, ts, i) == Binary(d, LogicalOr, ts, i);
  }

  /** One `operator operand` pair of the binary loop. */
  lemma TailStep(d: Dialect, p: Precedence, l: A.Expr, r: A.Expr, ts: seq<Token>, opPos: nat, next: nat)
    requires opPos < |ts| && ts[opPos].kind == OperatorKind(p)
    requires Operand(d, p, ts, opPos + 1) == Ok(Parsed(r, next))
    ensures BinaryTail(d, p, l, ts, opPos) == BinaryTail(d, p, Combine(p, ts[opPos].text, l, r), ts, next)
  {
  }

  lemma TailStop(d: Dialect, p: Precedence, l: A.Expr, ts: seq<Token>, pos: nat)
    requires pos < |ts| && ts[pos].kind != OperatorKind(p)
    ensures BinaryTail(d, p, l, ts, pos) == Ok(Parsed(l, pos))
  {
  }

  /** What level `p` reads, followed by a token that ends the expression, is
      the whole Expression. */
  lemma BinaryToExpression(d: Dialect, p: Precedence, ts: seq<Token>, pos: nat, e: A.Expr, end: nat)
    requires pos < end < |ts| && Binary(d, p, ts, pos) == Ok(Parsed(e, end)) && Ends(ts[end].kind)
    ensures AssignmentExpression(d, ts, pos) == Ok(Parsed(e, end))
  {
    OperandIsBelow(d, p, ts, pos);
    assert ParseAt(d, LevelOf(p), ts, pos) == Binary(d, p, ts, pos);
    Climb(d, LevelOf(p), 10, ts, pos, e, end);
  }

  // ---------------------------------------------------------------------------
  // Binary and logical levels

  /** Two operators of one level fold to the left, whatever the operands:
      `1-2-3` is `(1-2)-3`, `a||b||c` is `(a||b)||c`, `f(x)*y.z*(w)` is
      `(f(x)*y.z)*w`, and each node keeps its operator's lexeme. */
  lemma LeftAssociative(d: Dialect, p: Precedence, ts: seq<Token>, pos: nat,
                        x: A.Expr, i: nat, y: A.Expr, j: nat, z: A.Expr, k: nat)
    requires pos < i < j < k < |ts|
    requires Operand(d, p, ts, pos) == Ok(Parsed(x, i)) && ts[i].kind == OperatorKind(p)
    requires Operand(d, p, ts, i + 1) == Ok(Parsed(y, j)) && ts[j].kind == OperatorKind(p)
    requires Operand(d, p, ts, j + 1) == Ok(Parsed(z, k)) && Ends(ts[k].kind)
    ensures AssignmentExpression(d, ts, pos)
         == Ok(Parsed(Combine(p, ts[j].text, Combine(p, ts[i].text, x, y), z), k))
  {
    OperatorLevel(p);
    var xy := Combine(p, ts[i].text, x, y);
    var e := Combine(p, ts[j].text, xy, z);
    TailStep(d, p, x, y, ts, i, j);
    TailStep(d, p, xy, z, ts, j, k);
    TailStop(d, p, e, ts, k);
    BinarySplit(d, p, x, ts, pos, i, e, k);
    BinaryToExpression(d, p, ts, pos, e, k);
  }

  /** Level `q` is read completely at `pos` and then handed up to the operand
      rule of the looser level `p`. */
  lemma TighterOperand(d: Dialect, p: Precedence, q: Precedence, ts: seq<Token>, pos: nat, e: A.Expr, end: nat)
    requires Rank(q) < Rank(p) && pos < end < |ts|
    requires Binary(d, q, ts, pos) == Ok(Parsed(e, end))
    requires LevelOf(p) <= ContinueLevel(ts[end].kind)
    ensures Operand(d, p, ts, pos) == Ok(Parsed(e, end))
  {
    OperandIsBelow(d, q, ts, pos);
    OperandIsBelow(d, p, ts, pos);
    assert ParseAt(d, LevelOf(q), ts, pos) == Ok(Parsed(e, end));
    Climb(d, LevelOf(q), LevelOf(p) - 1, ts, pos, e, end);
  }

  /** A one-digit NUMBER token is a one-token operand worth its digit. */
  lemma DigitAtom(d: Dialect, ts: seq<Token>, i: nat, n: nat)
    requires i < |ts| && n < 10 && ts[i] == Token(NUMBER, [(('0' as int) + n) as char])
    ensures Atom(d, ts, i, A.NumericLiteral(n))
  {
    assert [(('0' as int) + n) as char][..0] == [];
    assert DecimalValue([(('0' as int) + n) as char]) == n;
    assert Literal(d, ts, i) == Ok(Parsed(A.NumericLiteral(n), i + 1));
    AtomIntro(d, ts, i, A.NumericLiteral(n));
  }

  /** `1-2-3;` reads as `(1-2)-3`. */
  lemma SubtractionFoldsLeft(d: Dialect, ts: seq<Token>)
    requires |ts| == 6 && ts[0] == Token(NUMBER, "1") && ts[1] == Token(ADDITIVE_OPERATOR, "-")
    requires ts[2] == Token(NUMBER, "2") && ts[3] == Token(ADDITIVE_OPERATOR, "-")
    requires ts[4] == Token(NUMBER, "3") && ts[5] == Token(Semicolon, ";")
    ensures AssignmentExpression(d, ts, 0)
         == Ok(Parsed(A.BinaryExpression("-", A.BinaryExpression("-", A.NumericLiteral(1), A.NumericLiteral(2)),
                                          A.NumericLiteral(3)), 5))
  {
    DigitAtom(d, ts, 0, 1);
    DigitAtom(d, ts, 2, 2);
    DigitAtom(d, ts, 4, 3);
    AtomOperand(d, Additive, ts, 0, A.NumericLiteral(1));
    AtomOperand(d, Additive, ts, 2, A.NumericLiteral(2));
    AtomOperand(d, Additive, ts, 4, A.NumericLiteral(3));
    LeftAssociative(d, Additive, ts, 0, A.NumericLiteral(1), 1, A.NumericLiteral(2), 3, A.NumericLiteral(3), 5);
  }

  /** `2+3*4;` reads as `2+(3*4)`. */
  lemma ProductBindsTighter(d: Dialect, ts: seq<Token>)
    requires |ts| == 6 && ts[0] == Token(NUMBER, "2") && ts[1] == Token(ADDITIVE_OPERATOR, "+")
    requires ts[2] == Token(NUMBER, "3") && ts[3] == Token(MULTIPLICATIVE_OPERATOR, "*")
    requires ts[4] == Token(NUMBER, "4") && ts[5] == Token(Semicolon, ";")
    ensures AssignmentExpression(d, ts, 0)
         == Ok(Parsed(A.BinaryExpression("+", A.NumericLiteral(2),
                                          A.BinaryExpression("*", A.NumericLiteral(3), A.NumericLiteral(4))), 5))
  {
    DigitAtom(d, ts, 0, 2);
    DigitAtom(d, ts, 2, 3);
    DigitAtom(d, ts, 4, 4);
    AtomOperand(d, Additive, ts, 0, A.NumericLiteral(2));
    AtomOperand(d, Multiplicative, ts, 2, A.NumericLiteral(3));
    AtomOperand(d, Multiplicative, ts, 4, A.NumericLiteral(4));
    TighterOnRight(d, Additive, Multiplicative, ts, 0, A.NumericLiteral(2), 1, A.NumericLiteral(3), 3, A.NumericLiteral(4), 5);
  }

  /** Level `q` reads `x op y` in full when the token after `y` continues
      neither level `q` nor a tighter one. */
  lemma Pair(d: Dialect, q: Precedence, ts: seq<Token>, pos: nat, x: A.Expr, i: nat, y: A.Expr, j: nat)
    requires pos < i < j < |ts| && LevelOf(q) < ContinueLevel(ts[j].kind)
    requires Operand(d, q, ts, pos) == Ok(Parsed(x, i)) && ts[i].kind == OperatorKind(q)
    requires Operand(d, q, ts, i + 1) == Ok(Parsed(y, j))
    ensures Binary(d, q, ts, pos) == Ok(Parsed(Combine(q, ts[i].text, x, y), j))
  {
    OperatorLevel(q);
    var xy := Combine(q, ts[i].text, x, y);
    TailStep(d, q, x, y, ts, i, j);
    TailStop(d, q, xy, ts, j);
    BinarySplit(d, q, x, ts, pos, i, xy, j);
  }

  /** A tighter operator on the right takes the middle operand, whatever the
      operands: `2+3*4` is `2+(3*4)`, `a||b&&c` is `a||(b&&c)`. */
  lemma TighterOnRight(d: Dialect, p: Precedence, q: Precedence, ts: seq<Token>, pos: nat,
                       x: A.Expr, i: nat, y: A.Expr, j: nat, z: A.Expr, k: nat)
    requires Rank(q) < Rank(p) && pos < i < j < k < |ts|
    requires Operand(d, p, ts, pos) == Ok(Parsed(x, i)) && ts[i].kind == OperatorKind(p)
    requires Operand(d, q, ts, i + 1) == Ok(Parsed(y, j)) && ts[j].kind == OperatorKind(q)
    requires Operand(d, q, ts, j + 1) == Ok(Parsed(z, k)) && Ends(ts[k].kind)
    ensures AssignmentExpression(d, ts, pos)
         == Ok(Parsed(Combine(p, ts[i].text, x, Combine(q, ts[j].text, y, z)), k))
  {
    OperatorLevel(p);
    OperatorLevel(q);
    var yz := Combine(q, ts[j].text, y, z);
    Pair(d, q, ts, i + 1, y, j, z, k);
    TighterOperand(d, p, q, ts, i + 1, yz, k);
    LooserTail(d, p, x, yz, ts, pos, i, k);
  }

  /** Level `p` reads its left operand `l` up to `opPos`, then one
      `operator operand` pair, then a token that ends the expression. */
  lemma LooserTail(d: Dialect, p: Precedence, l: A.Expr, r: A.Expr, ts: seq<Token>, pos: nat, opPos: nat, end: nat)
    requires pos < opPos < end < |ts| && ts[opPos].kind == OperatorKind(p) && Ends(ts[end].kind)
    requires Operand(d, p, ts, pos) == Ok(Parsed(l, opPos))
    requires Operand(d, p, ts, opPos + 1) == Ok(Parsed(r, end))
    ensures AssignmentExpression(d, ts, pos) == Ok(Parsed(Combine(p, ts[opPos].text, l, r), end))
  {
    OperatorLevel(p);
    var e := Combine(p, ts[opPos].text, l, r);
    TailStep(d, p, l, r, ts, opPos, end);
    TailStop(d, p, e, ts, end);
    BinarySplit(d, p, l, ts, pos, opPos, e, end);
    BinaryToExpression(d, p, ts, pos, e, end);
  }

  /** A tighter operator on the left is finished before the looser one,
      whatever the operands: `2*3+4` is `(2*3)+4`. */
  lemma TighterOnLeft(d: Dialect, p: Precedence, q: Precedence, ts: seq<Token>, pos: nat,
                      x: A.Expr, i: nat, y: A.Expr, j: nat, z: A.Expr, k: nat)
    requires Rank(q) < Rank(p) && pos < i < j < k < |ts|
    requires Operand(d, q, ts, pos) == Ok(Parsed(x, i)) && ts[i].kind == OperatorKind(q)
    requires Operand(d, q, ts, i + 1) == Ok(Parsed(y, j)) && ts[j].kind == OperatorKind(p)
    requires Operand(d, p, ts, j + 1) == Ok(Parsed(z, k)) && Ends(ts[k].kind)
    ensures AssignmentExpression(d, ts, pos)
         == Ok(Parsed(Combine(p, ts[j].text, Combine(q, ts[i].text, x, y), z), k))
  {
    OperatorLevel(p);
    OperatorLevel(q);
    var xy := Combine(q, ts[i].text, x, y);
    Pair(d, q, ts, pos, x, i, y, j);
    TighterOperand(d, p, q, ts, pos, xy, j);
    LooserTail(d, p, xy, z, ts, pos, j, k);
  }

  // ---------------------------------------------------------------------------
  // Lifting a result up the chain

  /** What UnaryExpression reads, followed by a token that ends the
      expression, is the whole Expression. */
  lemma UnaryToExpression(d: Dialect, ts: seq<Token>, pos: nat, e: A.Expr, end: nat)
    requires pos < end < |ts| && Unary(d, ts, pos) == Ok(Parsed(e, end)) && Ends(ts[end].kind)
    ensures AssignmentExpression(d, ts, pos) == Ok(Parsed(e, end))
  {
    assert ParseAt(d, 3, ts, pos) == Unary(d, ts, pos);
    Climb(d, 3, 10, ts, pos, e, end);
  }

  /** The same from CallMemberExpression, which cannot start at a prefix
      operator. */
  lemma CallMemberToExpression(d: Dialect, ts: seq<Token>, pos: nat, e: A.Expr, end: nat)
    requires pos < end < |ts| && CallMember(d, ts, pos) == Ok(Parsed(e, end))
    requires !IsPrefixOperator(ts[pos].kind) && StopsBetween(2, 10, ts[end].kind)
    ensures AssignmentExpression(d, ts, pos) == Ok(Parsed(e, end))
  {
    assert ParseAt(d, 2, ts, pos) == CallMember(d, ts, pos);
    Climb(d, 2, 10, ts, pos, e, end);
  }

  // ---------------------------------------------------------------------------
  // Assignment

  predicate IsAssignKind(k: Kind) {
    k == SIMPLE_ASSIGN || k == COMPLEX_ASSIGN
  }

  /** Assignment nests to the right, keeping each operator's lexeme:
      `a=b=1` is `a=(b=1)`. */
  lemma AssignmentNestsRight(d: Dialect, ts: seq<Token>, pos: nat, x: A.Expr, y: A.Expr, z: A.Expr)
    requires pos + 5 < |ts|
    requires Atom(d, ts, pos, x) && Atom(d, ts, pos + 2, y) && Atom(d, ts, pos + 4, z)
    requires A.IsAssignmentTarget(x) && A.IsAssignmentTarget(y)
    requires IsAssignKind(ts[pos + 1].kind) && IsAssignKind(ts[pos + 3].kind)
    requires Ends(ts[pos + 5].kind)
    ensures AssignmentExpression(d, ts, pos)
         == Ok(Parsed(A.AssignmentExpression(ts[pos + 1].text, x,
                        A.AssignmentExpression(ts[pos + 3].text, y, z)), pos + 5))
  {
    AtomElim(d, ts, pos + 4, z);
    PrimaryToExpression(d, ts, pos + 4, z, pos + 5);
    AtomAssignment(d, ts, pos + 2, y, z, pos + 5);
    AtomAssignment(d, ts, pos, x, A.AssignmentExpression(ts[pos + 3].text, y, z), pos + 5);
  }

  /** A one-token target, an assignment operator and a right-hand side. */
  lemma AtomAssignment(d: Dialect, ts: seq<Token>, i: nat, l: A.Expr, r: A.Expr, end: nat)
    requires i + 1 < |ts| && Atom(d, ts, i, l) && A.IsAssignmentTarget(l) && IsAssignKind(ts[i + 1].kind)
    requires AssignmentExpression(d, ts, i + 2) == Ok(Parsed(r, end))
    ensures AssignmentExpression(d, ts, i) == Ok(Parsed(A.AssignmentExpression(ts[i + 1].text, l, r), end))
  {
    AtomBeforeAssignment(d, ts, i, l);
    AssignmentParse(d, ts[i + 1].text, l, r, ts, i, i + 1, end);
  }

  /** Without an assignment operator after the left side there is no
      AssignmentExpression node: the left side is the whole Expression. */
  lemma NoAssignmentWrapper(d: Dialect, ts: seq<Token>, pos: nat, l: A.Expr, end: nat)
    requires pos <= end < |ts| && !IsAssignKind(ts[end].kind)
    requires Binary(d, LogicalOr, ts, pos) == Ok(Parsed(l, end))
    ensures AssignmentExpression(d, ts, pos) == Ok(Parsed(l, end))
  {
  }

  /** The target check: after an assignment operator the parse goes on
      exactly when the left side is an Identifier or a MemberExpression. */
  lemma AssignmentNeedsTarget(d: Dialect, ts: seq<Token>, pos: nat, l: A.Expr, opPos: nat, r: A.Expr, end: nat)
    requires pos <= opPos < |ts| && IsAssignKind(ts[opPos].kind)
    requires Binary(d, LogicalOr, ts, pos) == Ok(Parsed(l, opPos))
    requires AssignmentExpression(d, ts, opPos + 1) == Ok(Parsed(r, end))
    ensures AssignmentExpression(d, ts, pos).Ok? <==> A.IsAssignmentTarget(l)
    ensures A.IsAssignmentTarget(l) ==>
      AssignmentExpression(d, ts, pos) == Ok(Parsed(A.AssignmentExpression(ts[opPos].text, l, r), end))
  {
  }

  /** `1=2` fails: a literal followed by an assignment operator is a syntax
      error whatever comes after. */
  lemma LiteralTargetFails(d: Dialect, ts: seq<Token>, pos: nat)
    requires pos + 1 < |ts| && IsLiteralKind(d, ts[pos].kind) && IsAssignKind(ts[pos + 1].kind)
    ensures AssignmentExpression(d, ts, pos) == Err(SyntaxError)
  {
    var lit := Literal(d, ts, pos);
    assert Primary(d, ts, pos) == lit;
    assert !A.IsAssignmentTarget(lit.value.node);
    AtomIntro(d, ts, pos, lit.value.node);
    AtomBeforeAssignment(d, ts, pos, lit.value.node);
  }

  // ---------------------------------------------------------------------------
  // Prefix operators, parentheses, calls and member access

  /** Prefix operators nest: `!!x` is `!(!x)`, `-+x` is `-(+x)`. */
  lemma PrefixesNest(d: Dialect, ts: seq<Token>, pos: nat, x: A.Expr)
    requires pos + 3 < |ts| && IsPrefixOperator(ts[pos].kind) && IsPrefixOperator(ts[pos + 1].kind)
    requires d == Web ==> ts[pos].text != "" && ts[pos + 1].text != ""
    requires Atom(d, ts, pos + 2, x) && Ends(ts[pos + 3].kind)
    ensures AssignmentExpression(d, ts, pos)
         == Ok(Parsed(A.UnaryExpression(ts[pos].text, A.UnaryExpression(ts[pos + 1].text, x)), pos + 3))
  {
    AtomAt(d, 2, ts, pos + 2, x);
    AtomElim(d, ts, pos + 2, x);
    PrimaryNotPrefix(d, ts, pos + 2);
    UnaryPassesThrough(d, ts, pos + 2, x, pos + 3);
    var inner := A.UnaryExpression(ts[pos + 1].text, x);
    assert Unary(d, ts, pos + 1) == Ok(Parsed(inner, pos + 3));
    assert Unary(d, ts, pos) == Ok(Parsed(A.UnaryExpression(ts[pos].text, inner), pos + 3));
    UnaryToExpression(d, ts, pos, A.UnaryExpression(ts[pos].text, inner), pos + 3);
  }

  /** A parenthesised Expression is a PrimaryExpression of its own. */
  lemma ParenPrimary(d: Dialect, ts: seq<Token>, pos: nat, e: A.Expr, close: nat)
    requires pos < close < |ts| && ts[pos].kind == OpenParen && ts[close].kind == CloseParen
    requires AssignmentExpression(d, ts, pos + 1) == Ok(Parsed(e, close))
    ensures Primary(d, ts, pos) == Ok(Parsed(e, close + 1))
  {
  }

  /** Parentheses produce no node: `((x))` is `x`. */
  lemma ParenthesesVanish(d: Dialect, ts: seq<Token>, pos: nat, x: A.Expr)
    requires pos + 5 < |ts| && ts[pos].kind == OpenParen && ts[pos + 1].kind == OpenParen
    requires Atom(d, ts, pos + 2, x) && ts[pos + 3].kind == CloseParen && ts[pos + 4].kind == CloseParen
    requires Ends(ts[pos + 5].kind)
    ensures AssignmentExpression(d, ts, pos) == Ok(Parsed(x, pos + 5))
  {
    AtomElim(d, ts, pos + 2, x);
    PrimaryToExpression(d, ts, pos + 2, x, pos + 3);
    ParenPrimary(d, ts, pos + 1, x, pos + 3);
    PrimaryToExpression(d, ts, pos + 1, x, pos + 4);
    ParenPrimary(d, ts, pos, x, pos + 4);
    PrimaryToExpression(d, ts, pos, x, pos + 5);
  }

  /** Calls chain: `f()()` is a call of the call `f()`. */
  lemma CallsNest(d: Dialect, ts: seq<Token>, pos: nat, f: A.Expr)
    requires pos + 5 < |ts| && Atom(d, ts, pos, f)
    requires ts[pos + 1].kind == OpenParen && ts[pos + 2].kind == CloseParen
    requires ts[pos + 3].kind == OpenParen && ts[pos + 4].kind == CloseParen
    requires Ends(ts[pos + 5].kind)
    ensures AssignmentExpression(d, ts, pos)
         == Ok(Parsed(A.CallExpression(A.CallExpression(f, []), []), pos + 5))
  {
    var inner := A.CallExpression(f, []);
    var outer := A.CallExpression(inner, []);
    AtomElim(d, ts, pos, f);
    MemberStops(d, ts, pos, f, pos + 1);
    assert Arguments(d, ts, pos + 3) == Ok(Parsed([], pos + 5));
    assert CallTail(d, inner, ts, pos + 3) == Ok(Parsed(outer, pos + 5));
    assert Arguments(d, ts, pos + 1) == Ok(Parsed([], pos + 3));
    assert CallTail(d, f, ts, pos + 1) == Ok(Parsed(outer, pos + 5));
    CallSplit(d, f, ts, pos, pos + 1, outer, pos + 5);
    PrimaryNotPrefix(d, ts, pos);
    CallMemberToExpression(d, ts, pos, outer, pos + 5);
  }

  /** Member access folds to the left, `.name` giving a non-computed and
      `[Expression]` a computed MemberExpression: `a.b[c]` is `(a.b)[c]`. */
  lemma MembersFoldLeft(d: Dialect, ts: seq<Token>, pos: nat, o: A.Expr, name: string, k: A.Expr)
    requires pos + 6 < |ts| && Atom(d, ts, pos, o)
    requires ts[pos + 1].kind == Dot && ts[pos + 2] == Token(IDENTIFIER, name)
    requires ts[pos + 3].kind == OpenBracket && Atom(d, ts, pos + 4, k) && ts[pos + 5].kind == CloseBracket
    requires Ends(ts[pos + 6].kind)
    ensures AssignmentExpression(d, ts, pos)
         == Ok(Parsed(A.MemberExpression(true, A.MemberExpression(false, o, A.Identifier(name)), k), pos + 6))
  {
    var dot := A.MemberExpression(false, o, A.Identifier(name));
    var e := A.MemberExpression(true, dot, k);
    AtomElim(d, ts, pos, o);
    AtomElim(d, ts, pos + 4, k);
    PrimaryToExpression(d, ts, pos + 4, k, pos + 5);
    assert MemberTail(d, e, ts, pos + 6) == Ok(Parsed(e, pos + 6));
    MemberTailIndexParse(d, dot, k, ts, pos + 3, pos + 5, e, pos + 6);
    MemberTailDotParse(d, o, name, ts, pos + 1, e, pos + 6);
    MemberSplit(d, o, ts, pos, pos + 1, e, pos + 6);
    CallMemberStops(d, ts, pos, e, pos + 6);
    PrimaryNotPrefix(d, ts, pos);
    CallMemberToExpression(d, ts, pos, e, pos + 6);
  }

  /** The lookahead kinds that `Statement()` hands to ExpressionStatement:
      every kind but the statement keywords, `;` and `{` of the dialect. */
  predicate ExpressionLead(d: Dialect, k: Kind) {
    && k != KwIf && k != KwWhile && !(d == Web && k == KwFor) && k != KwFunction
    && k != Semicolon && k != OpenBrace && k != DeclarationKeyword(d) && k != KwReturn
    && !(d == Src && k == KwClass)
  }

  /** An expression statement whose expression is not followed by `;`
      fails, whatever token the expression starts with. */
  lemma MissingSemicolon(d: Dialect, ts: seq<Token>, pos: nat, e: A.Expr, end: nat)
    requires pos < |ts| && ExpressionLead(d, ts[pos].kind)
    requires AssignmentExpression(d, ts, pos) == Ok(Parsed(e, end)) && !LookaheadIs(ts, end, Semicolon)
    ensures Statement(d, ts, pos) == Err(SyntaxError)
  {
    assert ExpressionStatement(d, ts, pos) == Err(SyntaxError);
    assert SimpleStatement(d, ts, pos) == Err(SyntaxError);
  }

  /** A program whose first statement fails fails. */
  lemma FirstStatementFails(d: Dialect, ts: seq<Token>)
    requires Statement(d, ts, 0).Err?
    ensures Program(d, ts).Err?
  {
    assert StatementList(d, ts, 0, None).Err?;
  }

  /** `a.b()` followed by `.`: the member loop ends at `(`, the call loop at
      the `.`. */
  lemma CallThenDot(d: Dialect, ts: seq<Token>, a: string, b: string)
    requires |ts| > 5 && ts[0] == Token(IDENTIFIER, a) && ts[1].kind == Dot && ts[2] == Token(IDENTIFIER, b)
    requires ts[3].kind == OpenParen && ts[4].kind == CloseParen && ts[5].kind == Dot
    ensures AssignmentExpression(d, ts, 0)
         == Ok(Parsed(A.CallExpression(A.MemberExpression(false, A.Identifier(a), A.Identifier(b)), []), 5))
  {
    var dot := A.MemberExpression(false, A.Identifier(a), A.Identifier(b));
    var call := A.CallExpression(dot, []);
    NameOperand(d, a, ts, 0);
    assert MemberTail(d, dot, ts, 3) == Ok(Parsed(dot, 3));
    MemberTailDotParse(d, A.Identifier(a), b, ts, 1, dot, 3);
    MemberSplit(d, A.Identifier(a), ts, 0, 1, dot, 3);
    assert Arguments(d, ts, 3) == Ok(Parsed([], 5));
    assert CallTail(d, dot, ts, 3) == Ok(Parsed(call, 5));
    CallSplit(d, dot, ts, 0, 3, call, 5);
    CallMemberToExpression(d, ts, 0, call, 5);
  }

  /** The member loop never stops in front of `.` or `[`: it reads every
      accessor that follows. */
  lemma {:induction false} MemberTailEnds(d: Dialect, o: A.Expr, ts: seq<Token>, pos: nat)
    requires pos <= |ts| && MemberTail(d, o, ts, pos).Ok?
    ensures var n := MemberTail(d, o, ts, pos).value.next;
      n == |ts| || (ts[n].kind != Dot && ts[n].kind != OpenBracket)
    decreases |ts| - pos
  {
    if pos < |ts| && ts[pos].kind == Dot {
      var Parsed(property, p2) := Identifier(ts, pos + 1).value;
      MemberTailEnds(d, A.MemberExpression(false, o, property), ts, p2);
    } else if pos < |ts| && ts[pos].kind == OpenBracket {
      var Parsed(property, p2) := AssignmentExpression(d, ts, pos + 1).value;
      var Parsed(_, p3) := Eat(ts, p2, CloseBracket).value;
      MemberTailEnds(d, A.MemberExpression(true, o, property), ts, p3);
    }
  }

  /** The call loop builds a call of its callee and stops at a token other
      than `(`. */
  lemma {:induction false} CallTailEnds(d: Dialect, callee: A.Expr, ts: seq<Token>, pos: nat)
    requires pos <= |ts| && CallTail(d, callee, ts, pos).Ok?
    ensures CallTail(d, callee, ts, pos).value.node.CallExpression?
    decreases |ts| - pos
  {
    var Parsed(args, p1) := Arguments(d, ts, pos).value;
    if p1 < |ts| && ts[p1].kind == OpenParen {
      CallTailEnds(d, A.CallExpression(callee, args), ts, p1);
    }
  }

  /** PrimaryExpression starts only at a literal, `(`, an identifier or Web's
      `this`, each of which leads an expression statement. */
  lemma PrimaryLeads(d: Dialect, ts: seq<Token>, pos: nat)
    requires pos <= |ts| && Primary(d, ts, pos).Ok?
    ensures pos < |ts| && ExpressionLead(d, ts[pos].kind) && !IsPrefixOperator(ts[pos].kind)
  {
  }

  /** Once the member loop has ended, only calls follow: whenever the
      call-and-member level stops in front of `.` or `[`, what it read is a
      call, it is the whole expression, and the statement fails because `;`
      is not next. This is why `a.b().c;` and `f()[0];` are rejected. */
  lemma AccessAfterCallFails(d: Dialect, ts: seq<Token>, pos: nat, e: A.Expr, end: nat)
    requires pos <= end < |ts| && CallMember(d, ts, pos) == Ok(Parsed(e, end))
    requires ts[end].kind == Dot || ts[end].kind == OpenBracket
    ensures e.CallExpression?
    ensures AssignmentExpression(d, ts, pos) == Ok(Parsed(e, end))
    ensures Statement(d, ts, pos) == Err(SyntaxError)
  {
    var Parsed(o, p0) := Primary(d, ts, pos).value;
    PrimaryLeads(d, ts, pos);
    var Parsed(member, p1) := Member(d, ts, pos).value;
    MemberTailEnds(d, o, ts, p0);
    if p1 < |ts| && ts[p1].kind == OpenParen {
      CallTailEnds(d, member, ts, p1);
    }
    CallMemberToExpression(d, ts, pos, e, end);
    MissingSemicolon(d, ts, pos, e, end);
  }

  /** After a call only further calls follow: `a.b().c;` fails, because the
      expression ends at the second `.` where `;` is expected. */
  lemma MemberAfterCallFails(d: Dialect, ts: seq<Token>, a: string, b: string, c: string)
    requires ts == [Token(IDENTIFIER, a), Token(Dot, "."), Token(IDENTIFIER, b), Token(OpenParen, "("),
                    Token(CloseParen, ")"), Token(Dot, "."), Token(IDENTIFIER, c), Token(Semicolon, ";")]
    ensures Program(d, ts) == Err(SyntaxError)
  {
    var call := A.CallExpression(A.MemberExpression(false, A.Identifier(a), A.Identifier(b)), []);
    CallThenDot(d, ts, a, b);
    MissingSemicolon(d, ts, 0, call, 5);
    FirstStatementFails(d, ts);
  }

  // ---------------------------------------------------------------------------
  // The default branch of PrimaryExpression

  /** A token PrimaryExpression has no case for: not a literal, `(`, an
      identifier or (Web only) `this`, and not a prefix operator either. */
  predicate NoOperand(d: Dialect, k: Kind) {
    !IsLiteralKind(d, k) && k != OpenParen && k != IDENTIFIER && !(d == Web && k == KwThis)
    && !IsPrefixOperator(k)
  }

  /** `)`, `;`, `=`, Src's `this` and every other such token in operand
      position reach the default branch, which never consumes a token: the
      whole Expression fails. */
  lemma OperandMissing(d: Dialect, ts: seq<Token>, pos: nat)
    requires pos < |ts| && NoOperand(d, ts[pos].kind)
    ensures AssignmentExpression(d, ts, pos) == Err(SyntaxError)
  {
    assert Primary(d, ts, pos) == Err(SyntaxError);
    assert Member(d, ts, pos) == Err(SyntaxError);
    assert CallMember(d, ts, pos) == Err(SyntaxError);
    assert Unary(d, ts, pos) == Err(SyntaxError);
    assert Binary(d, Multiplicative, ts, pos) == Err(SyntaxError);
    assert Binary(d, Additive, ts, pos) == Err(SyntaxError);
    assert Binary(d, Relational, ts, pos) == Err(SyntaxError);
    assert Binary(d, Equality, ts, pos) == Err(SyntaxError);
    assert Binary(d, LogicalAnd, ts, pos) == Err(SyntaxError);
    assert Binary(d, LogicalOr, ts, pos) == Err(SyntaxError);
  }

  // ---------------------------------------------------------------------------
  // Statements decided by one lookahead token

  /** `{}` is a BlockStatement with an empty body. */
  lemma EmptyBlock(d: Dialect, ts: seq<Token>, pos: nat)
    requires pos + 1 < |ts| && ts[pos].kind == OpenBrace && ts[pos + 1].kind == CloseBrace
    ensures Statement(d, ts, pos) == Ok(Parsed(A.BlockStatement([]), pos + 2))
  {
    assert BlockStatement(d, ts, pos) == Ok(Parsed(A.BlockStatement([]), pos + 2));
    assert SimpleStatement(d, ts, pos) == BlockStatement(d, ts, pos);
  }

  /** Src `return;` fails: Src always reads an argument, and `;` is not an
      operand. */
  lemma SrcReturnNeedsArgument(ts: seq<Token>, pos: nat)
    requires pos + 1 < |ts| && ts[pos].kind == KwReturn && ts[pos + 1].kind == Semicolon
    ensures Statement(Src, ts, pos) == Err(SyntaxError)
  {
    OperandMissing(Src, ts, pos + 1);
    assert ReturnStatement(Src, ts, pos) == Err(SyntaxError);
    assert SimpleStatement(Src, ts, pos) == ReturnStatement(Src, ts, pos);
  }

  /** Web `return;` is a ReturnStatement without argument, and a Web
      ReturnStatement has no argument exactly when `;` follows `return`. */
  lemma WebReturnArgument(ts: seq<Token>, pos: nat)
    requires pos + 1 < |ts| && ts[pos].kind == KwReturn
    ensures ts[pos + 1].kind == Semicolon ==>
      Statement(Web, ts, pos) == Ok(Parsed(A.ReturnStatement(None), pos + 2))
    ensures Statement(Web, ts, pos).Ok? ==>
      Statement(Web, ts, pos).value.node.ReturnStatement?
      && (Statement(Web, ts, pos).value.node.argument.None? <==> ts[pos + 1].kind == Semicolon)
  {
    assert Statement(Web, ts, pos) == SimpleStatement(Web, ts, pos) == ReturnStatement(Web, ts, pos);
    var absent := ts[pos + 1].kind == Semicolon;
    if absent {
      assert OptionalExpression(Web, ts, pos + 1, true) == Ok(Parsed(None, pos + 1));
    }
  }

  /** A declarator has no initialiser exactly when `;` or `,` follows its
      name; any other token but `=` there fails. */
  lemma DeclaratorInit(d: Dialect, ts: seq<Token>, pos: nat)
    requires pos + 1 < |ts| && ts[pos].kind == IDENTIFIER
    ensures ts[pos + 1].kind == Semicolon || ts[pos + 1].kind == Comma ==>
      VariableDeclarator(d, ts, pos) == Ok(Parsed(A.VariableDeclarator(ts[pos].text, None), pos + 1))
    ensures VariableDeclarator(d, ts, pos).Ok? ==>
      (VariableDeclarator(d, ts, pos).value.node.init.None? <==> ts[pos + 1].kind == Semicolon || ts[pos + 1].kind == Comma)
    ensures ts[pos + 1].kind !in {Semicolon, Comma, SIMPLE_ASSIGN} ==> VariableDeclarator(d, ts, pos) == Err(SyntaxError)
  {
    assert Identifier(ts, pos) == Ok(Parsed(A.Identifier(ts[pos].text), pos + 1));
  }

  /** A Web `for`'s initialiser is absent exactly when `;` follows `(`. */
  lemma ForInitAbsent(ts: seq<Token>, pos: nat)
    requires pos <= |ts| && ForInit(ts, pos).Ok?
    ensures ForInit(ts, pos).value.node.None? <==> LookaheadIs(ts, pos, Semicolon)
  {
  }

  /** The test is absent exactly when `;` follows the initialiser, and the
      update is absent exactly when `)` follows the test's `;`: `for (;;)` has
      all three clauses null. */
  lemma ForClausesAbsent(ts: seq<Token>, pos: nat)
    requires pos <= |ts| && ForClauses(ts, pos).Ok?
    ensures ForInit(ts, pos).Ok? && ForInit(ts, pos).value.next < |ts|
    ensures ForClauses(ts, pos).value.node.0 == ForInit(ts, pos).value.node
    ensures var p1 := ForInit(ts, pos).value.next;
      ForClauses(ts, pos).value.node.1.None? <==> ts[p1].kind == Semicolon
    ensures var p1 := ForInit(ts, pos).value.next;
      var test := OptionalExpression(Web, ts, p1, ts[p1].kind == Semicolon);
      && test.Ok? && test.value.next + 1 < |ts| && ts[test.value.next].kind == Semicolon
      && (ForClauses(ts, pos).value.node.2.None? <==> ts[test.value.next + 1].kind == CloseParen)
  {
  }
}
