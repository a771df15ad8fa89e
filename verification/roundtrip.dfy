/** Parsing what the printer prints gives back the tree: for every
    well-formed program `p` of a dialect, `Program(d, PrintProgram(d, p)) ==
    Ok(p)`. The proof follows the parser: an expression printed as one
    operand or one parenthesised group is read by PrimaryExpression, and each
    rule of the precedence chain above it returns it unchanged as long as the
    next token does not continue that rule.

    A reader after the model can skip the `Delay` argument and the
    `...Rule`, `...Intro` and `...Elim` lemmas that come with each predicate
    taking one: they add no fact about the parser, and exist only to decide
    when the solver may unfold a definition, which keeps each proof small. */
module RoundTrip {
  import opened Wrappers
  import opened Chars
  import opened Tokens
  import A = Ast
  import opened Parser
  import opened Printer

  /** How many unfoldings a predicate below waits before its definition comes
      into view. The predicates that take one mean the same at every depth
      (each has a lemma `...Rule` saying what); the default depth only keeps
      their definitions, and the parser or printer behind them, out of the
      proofs that merely pass such a fact along. */
  datatype Delay = Now | Later(Delay)

  // ---------------------------------------------------------------------------
  // Token sequences inside token sequences

  /** `xs` occurs in `ts` starting at index `pos`. The delay `k` only
      keeps the slice out of sight of proofs that do not look inside; `AtRule`
      states what the predicate means. */
  predicate At(ts: seq<Token>, pos: nat, xs: seq<Token>, k: Delay := Later(Later(Now)))
  {
    match k
    case Now => pos + |xs| <= |ts| && ts[pos..pos + |xs|] == xs
    case Later(j) => At(ts, pos, xs, j)
  }

  lemma AtRule(ts: seq<Token>, pos: nat, xs: seq<Token>)
    ensures At(ts, pos, xs) <==> pos + |xs| <= |ts| && ts[pos..pos + |xs|] == xs
  {
    assert At(ts, pos, xs, Later(Now)) <==> At(ts, pos, xs, Now);
  }

  lemma At2(ts: seq<Token>, pos: nat, a: seq<Token>, b: seq<Token>)
    requires At(ts, pos, a + b)
    ensures At(ts, pos, a) && At(ts, pos + |a|, b)
  {
    AtRule(ts, pos, a + b);
    AtRule(ts, pos, a);
    AtRule(ts, pos + |a|, b);
    var w := ts[pos..pos + |a| + |b|];
    assert ts[pos..pos + |a|] == w[..|a|];
    assert w[..|a|] == a;
    assert ts[pos + |a|..pos + |a| + |b|] == w[|a|..];
    assert w[|a|..] == b;
  }

  lemma AtHead(ts: seq<Token>, pos: nat, xs: seq<Token>)
    requires At(ts, pos, xs) && |xs| > 0
    ensures pos < |ts| && ts[pos] == xs[0]
  {
    AtRule(ts, pos, xs);
    assert ts[pos..pos + |xs|][0] == ts[pos];
  }

  lemma AtOne(ts: seq<Token>, pos: nat, t: Token)
    requires At(ts, pos, [t])
    ensures pos < |ts| && ts[pos] == t
  {
    AtHead(ts, pos, [t]);
  }

  lemma AtTwo(ts: seq<Token>, pos: nat, t: Token, u: Token)
    requires At(ts, pos, [t, u])
    ensures pos + 1 < |ts| && ts[pos] == t && ts[pos + 1] == u
  {
    assert [t, u] == [t] + [u];
    At2(ts, pos, [t], [u]);
    AtOne(ts, pos, t);
    AtOne(ts, pos + 1, u);
  }

  lemma At3(ts: seq<Token>, pos: nat, a: seq<Token>, b: seq<Token>, c: seq<Token>)
    requires At(ts, pos, a + b + c)
    ensures At(ts, pos, a) && At(ts, pos + |a|, b) && At(ts, pos + |a| + |b|, c)
  {
    At2(ts, pos, a + b, c);
    At2(ts, pos, a, b);
  }

  lemma At4(ts: seq<Token>, pos: nat, a: seq<Token>, b: seq<Token>, c: seq<Token>, d: seq<Token>)
    requires At(ts, pos, a + b + c + d)
    ensures At(ts, pos, a) && At(ts, pos + |a|, b) && At(ts, pos + |a| + |b|, c)
    ensures At(ts, pos + |a| + |b| + |c|, d)
  {
    At2(ts, pos, a + b + c, d);
    At3(ts, pos, a, b, c);
  }

  lemma At5(ts: seq<Token>, pos: nat, a: seq<Token>, b: seq<Token>, c: seq<Token>, d: seq<Token>, e: seq<Token>)
    requires At(ts, pos, a + b + c + d + e)
    ensures At(ts, pos, a) && At(ts, pos + |a|, b) && At(ts, pos + |a| + |b|, c)
    ensures At(ts, pos + |a| + |b| + |c|, d) && At(ts, pos + |a| + |b| + |c| + |d|, e)
  {
    At2(ts, pos, a + b + c + d, e);
    At4(ts, pos, a, b, c, d);
  }

  // ---------------------------------------------------------------------------
  // The precedence chain as one indexed family of rules

  /** Rule `n` of the chain: 0 PrimaryExpression, 1 MemberExpression,
      2 CallMemberExpression, 3 UnaryExpression, 4 to 9 the binary levels from
      multiplicative to logical OR, 10 AssignmentExpression. */
  function ParseAt(d: Dialect, n: nat, ts: seq<Token>, pos: nat): PResult<A.Expr>
    requires n <= 10 && pos <= |ts|
  {
    if n == 0 then Primary(d, ts, pos)
    else if n == 1 then Member(d, ts, pos)
    else if n == 2 then CallMember(d, ts, pos)
    else if n == 3 then Unary(d, ts, pos)
    else if n <= 9 then Binary(d, LevelPrecedence(n), ts, pos)
    else AssignmentExpression(d, ts, pos)
  }

  function LevelPrecedence(n: nat): Precedence
    requires 4 <= n <= 9
  {
    if n == 4 then Multiplicative
    else if n == 5 then Additive
    else if n == 6 then Relational
    else if n == 7 then Equality
    else if n == 8 then LogicalAnd
    else LogicalOr
  }

  /** The chain index of a binary level. */
  function LevelOf(p: Precedence): nat {
    3 + Rank(p)
  }

  /** The one rule of the chain that a token of kind `k` right after an
      operand makes go on: `.` and `[` extend a member access, `(` a call, a
      binary operator its own level, an assignment operator the top rule;
      11 when the token continues none of them. */
  function ContinueLevel(k: Kind): nat {
    match k
    case Dot | OpenBracket => 1
    case OpenParen => 2
    case MULTIPLICATIVE_OPERATOR => 4
    case ADDITIVE_OPERATOR => 5
    case RELATIONAL_OPERATOR => 6
    case EQUALITY_OPERATOR => 7
    case LOGICAL_AND => 8
    case LOGICAL_OR => 9
    case SIMPLE_ASSIGN | COMPLEX_ASSIGN => 10
    case _ => 11
  }

  /** A token of kind `k` right after an operand makes rule `n` go on. */
  predicate Continues(n: nat, k: Kind) {
    ContinueLevel(k) == n
  }

  /** None of the rules `m + 1` to `n` goes on at kind `k`. */
  predicate StopsBetween(m: nat, n: nat, k: Kind) {
    !(m < ContinueLevel(k) <= n)
  }

  predicate IsPrefixOperator(k: Kind) {
    k == ADDITIVE_OPERATOR || k == LOGICAL_NOT
  }

  /** An operator of level `p` continues exactly that level. */
  lemma OperatorLevel(p: Precedence)
    ensures 4 <= LevelOf(p) <= 9 && ContinueLevel(OperatorKind(p)) == LevelOf(p)
  {
  }

  /** The operand rule of level `p` is the rule just below it in the chain. */
  lemma OperandIsBelow(d: Dialect, p: Precedence, ts: seq<Token>, pos: nat)
    requires pos <= |ts|
    ensures 4 <= LevelOf(p) <= 9 && LevelPrecedence(LevelOf(p)) == p
    ensures Operand(d, p, ts, pos) == ParseAt(d, LevelOf(p) - 1, ts, pos)
  {
  }

  lemma MemberStops(d: Dialect, ts: seq<Token>, pos: nat, e: A.Expr, end: nat)
    requires pos <= |ts| && Primary(d, ts, pos) == Ok(Parsed(e, end))
    requires end < |ts| && ts[end].kind != Dot && ts[end].kind != OpenBracket
    ensures Member(d, ts, pos) == Ok(Parsed(e, end))
  {
  }

  lemma CallMemberStops(d: Dialect, ts: seq<Token>, pos: nat, e: A.Expr, end: nat)
    requires pos <= |ts| && Member(d, ts, pos) == Ok(Parsed(e, end))
    requires end < |ts| && ts[end].kind != OpenParen
    ensures CallMember(d, ts, pos) == Ok(Parsed(e, end))
  {
  }

  lemma UnaryPassesThrough(d: Dialect, ts: seq<Token>, pos: nat, e: A.Expr, end: nat)
    requires pos < |ts| && CallMember(d, ts, pos) == Ok(Parsed(e, end))
    requires !IsPrefixOperator(ts[pos].kind)
    ensures Unary(d, ts, pos) == Ok(Parsed(e, end))
  {
  }

  lemma BinaryStops(d: Dialect, p: Precedence, ts: seq<Token>, pos: nat, e: A.Expr, end: nat)
    requires pos <= |ts| && Operand(d, p, ts, pos) == Ok(Parsed(e, end))
    requires end < |ts| && ts[end].kind != OperatorKind(p)
    ensures Binary(d, p, ts, pos) == Ok(Parsed(e, end))
  {
    assert BinaryTail(d, p, e, ts, end) == Ok(Parsed(e, end));
  }

  lemma AssignmentStops(d: Dialect, ts: seq<Token>, pos: nat, e: A.Expr, end: nat)
    requires pos <= |ts| && Binary(d, LogicalOr, ts, pos) == Ok(Parsed(e, end))
    requires end < |ts| && ts[end].kind != SIMPLE_ASSIGN && ts[end].kind != COMPLEX_ASSIGN
    ensures AssignmentExpression(d, ts, pos) == Ok(Parsed(e, end))
  {
  }

  /** One rule up the chain: if the token after the operand does not continue
      rule `n`, rule `n` returns what rule `n - 1` returned. */
  lemma ClimbStep(d: Dialect, n: nat, ts: seq<Token>, pos: nat, e: A.Expr, end: nat)
    requires 1 <= n <= 10 && pos < |ts|
    requires ParseAt(d, n - 1, ts, pos) == Ok(Parsed(e, end))
    requires end < |ts| && !Continues(n, ts[end].kind)
    requires n == 3 ==> !IsPrefixOperator(ts[pos].kind)
    ensures ParseAt(d, n, ts, pos) == Ok(Parsed(e, end))
  {
    if n == 1 {
      MemberStops(d, ts, pos, e, end);
    } else if n == 2 {
      CallMemberStops(d, ts, pos, e, end);
    } else if n == 3 {
      UnaryPassesThrough(d, ts, pos, e, end);
    } else if n <= 9 {
      OperandIsBelow(d, LevelPrecedence(n), ts, pos);
      OperatorLevel(LevelPrecedence(n));
      BinaryStops(d, LevelPrecedence(n), ts, pos, e, end);
    } else {
      AssignmentStops(d, ts, pos, e, end);
    }
  }

  lemma {:induction false} Climb(d: Dialect, m: nat, n: nat, ts: seq<Token>, pos: nat, e: A.Expr, end: nat)
    requires m <= n <= 10 && pos < |ts|
    requires ParseAt(d, m, ts, pos) == Ok(Parsed(e, end))
    requires end < |ts| && StopsBetween(m, n, ts[end].kind)
    requires m < 3 <= n ==> !IsPrefixOperator(ts[pos].kind)
    ensures ParseAt(d, n, ts, pos) == Ok(Parsed(e, end))
    decreases n - m
  {
    if m < n {
      Climb(d, m, n - 1, ts, pos, e, end);
      ClimbStep(d, n, ts, pos, e, end);
    }
  }

  // ---------------------------------------------------------------------------
  // What one rule returns

  /** The parsing functions a printed expression passes through: the rules of
      the chain, and the loops that finish a member access, a call and a
      binary level once their first operand is read. */
  datatype Rule =
    | PrimaryRule
    | MemberRule
    | CallMemberRule
    | UnaryRule
    | OperandRule(p: Precedence)
    | BinaryRule(p: Precedence)
    | AssignmentRule
    | MemberTailRule(obj: A.Expr)
    | CallTailRule(callee: A.Expr)
    | BinaryTailRule(level: Precedence, left: A.Expr)

  function RunRule(d: Dialect, rule: Rule, ts: seq<Token>, pos: nat): PResult<A.Expr>
    requires pos <= |ts|
  {
    match rule
    case PrimaryRule => Primary(d, ts, pos)
    case MemberRule => Member(d, ts, pos)
    case CallMemberRule => CallMember(d, ts, pos)
    case UnaryRule => Unary(d, ts, pos)
    case OperandRule(p) => Operand(d, p, ts, pos)
    case BinaryRule(p) => Binary(d, p, ts, pos)
    case AssignmentRule => AssignmentExpression(d, ts, pos)
    case MemberTailRule(obj) => MemberTail(d, obj, ts, pos)
    case CallTailRule(callee) => CallTail(d, callee, ts, pos)
    case BinaryTailRule(p, left) => BinaryTail(d, p, left, ts, pos)
  }

  /** The index of a rule in the chain; 11 for the loops, which are not in it. */
  function Level(rule: Rule): nat {
    match rule
    case PrimaryRule => 0
    case MemberRule => 1
    case CallMemberRule => 2
    case UnaryRule => 3
    case OperandRule(p) => LevelOf(p) - 1
    case BinaryRule(p) => LevelOf(p)
    case AssignmentRule => 10
    case _ => 11
  }

  /** Every rule of the chain is the chain's rule at its level. */
  lemma RuleLevel(d: Dialect, rule: Rule, ts: seq<Token>, pos: nat)
    requires pos <= |ts| && Level(rule) <= 10
    ensures RunRule(d, rule, ts, pos) == ParseAt(d, Level(rule), ts, pos)
  {
    match rule
    case OperandRule(p) => OperandIsBelow(d, p, ts, pos);
    case BinaryRule(p) => OperandIsBelow(d, p, ts, pos);
    case _ =>
  }

  /** `rule` reads `e` from `ts[pos..end]`. The delay `k` does not change the
      meaning (ReadsRule): it only keeps a proof that passes the fact along
      from unfolding the parser behind it. */
  predicate Reads(d: Dialect, rule: Rule, ts: seq<Token>, pos: nat, e: A.Expr, end: nat, k: Delay := Later(Later(Now)))
  {
    match k
    case Now => pos <= |ts| && RunRule(d, rule, ts, pos) == Ok(Parsed(e, end))
    case Later(j) => Reads(d, rule, ts, pos, e, end, j)
  }

  lemma ReadsRule(d: Dialect, rule: Rule, ts: seq<Token>, pos: nat, e: A.Expr, end: nat)
    ensures Reads(d, rule, ts, pos, e, end) <==> pos <= |ts| && RunRule(d, rule, ts, pos) == Ok(Parsed(e, end))
  {
    assert Reads(d, rule, ts, pos, e, end, Later(Now)) <==> Reads(d, rule, ts, pos, e, end, Now);
  }

  /** Arguments reads the parenthesised list `args` from `ts[pos..end]`. */
  predicate ArgumentsRead(d: Dialect, ts: seq<Token>, pos: nat, args: seq<A.Expr>, end: nat, k: Delay := Later(Later(Now)))
  {
    match k
    case Now => pos <= |ts| && Arguments(d, ts, pos) == Ok(Parsed(args, end))
    case Later(j) => ArgumentsRead(d, ts, pos, args, end, j)
  }

  lemma ArgumentsReadRule(d: Dialect, ts: seq<Token>, pos: nat, args: seq<A.Expr>, end: nat)
    ensures ArgumentsRead(d, ts, pos, args, end) <==> pos <= |ts| && Arguments(d, ts, pos) == Ok(Parsed(args, end))
  {
    assert ArgumentsRead(d, ts, pos, args, end, Later(Now)) <==> ArgumentsRead(d, ts, pos, args, end, Now);
  }

  /** The argument loop, having read `prefix`, reads on to `args` and stops
      at `end`. */
  predicate ListTailReads(d: Dialect, prefix: seq<A.Expr>, ts: seq<Token>, pos: nat, args: seq<A.Expr>, end: nat, k: Delay := Later(Later(Now)))
  {
    match k
    case Now => pos <= |ts| && ArgumentListTail(d, prefix, ts, pos) == Ok(Parsed(args, end))
    case Later(j) => ListTailReads(d, prefix, ts, pos, args, end, j)
  }

  lemma ListTailReadsRule(d: Dialect, prefix: seq<A.Expr>, ts: seq<Token>, pos: nat, args: seq<A.Expr>, end: nat)
    ensures ListTailReads(d, prefix, ts, pos, args, end) <==> pos <= |ts| && ArgumentListTail(d, prefix, ts, pos) == Ok(Parsed(args, end))
  {
    assert ListTailReads(d, prefix, ts, pos, args, end, Later(Now)) <==> ListTailReads(d, prefix, ts, pos, args, end, Now);
  }

  // One lemma per rule saying what Reads means for it; a proof that names
  // the parser function of a single rule stays clear of the others.

  lemma ReadsPrimary(d: Dialect, ts: seq<Token>, pos: nat, e: A.Expr, end: nat)
    ensures Reads(d, PrimaryRule, ts, pos, e, end) <==> pos <= |ts| && Primary(d, ts, pos) == Ok(Parsed(e, end))
  { ReadsRule(d, PrimaryRule, ts, pos, e, end); }

  lemma ReadsMember(d: Dialect, ts: seq<Token>, pos: nat, e: A.Expr, end: nat)
    ensures Reads(d, MemberRule, ts, pos, e, end) <==> pos <= |ts| && Member(d, ts, pos) == Ok(Parsed(e, end))
  { ReadsRule(d, MemberRule, ts, pos, e, end); }

  lemma ReadsCallMember(d: Dialect, ts: seq<Token>, pos: nat, e: A.Expr, end: nat)
    ensures Reads(d, CallMemberRule, ts, pos, e, end) <==> pos <= |ts| && CallMember(d, ts, pos) == Ok(Parsed(e, end))
  { ReadsRule(d, CallMemberRule, ts, pos, e, end); }

  lemma ReadsUnary(d: Dialect, ts: seq<Token>, pos: nat, e: A.Expr, end: nat)
    ensures Reads(d, UnaryRule, ts, pos, e, end) <==> pos <= |ts| && Unary(d, ts, pos) == Ok(Parsed(e, end))
  { ReadsRule(d, UnaryRule, ts, pos, e, end); }

  lemma ReadsOperand(d: Dialect, p: Precedence, ts: seq<Token>, pos: nat, e: A.Expr, end: nat)
    ensures Reads(d, OperandRule(p), ts, pos, e, end) <==> pos <= |ts| && Operand(d, p, ts, pos) == Ok(Parsed(e, end))
  { ReadsRule(d, OperandRule(p), ts, pos, e, end); }

  lemma ReadsBinary(d: Dialect, p: Precedence, ts: seq<Token>, pos: nat, e: A.Expr, end: nat)
    ensures Reads(d, BinaryRule(p), ts, pos, e, end) <==> pos <= |ts| && Binary(d, p, ts, pos) == Ok(Parsed(e, end))
  { ReadsRule(d, BinaryRule(p), ts, pos, e, end); }

  lemma ReadsAssignment(d: Dialect, ts: seq<Token>, pos: nat, e: A.Expr, end: nat)
    ensures Reads(d, AssignmentRule, ts, pos, e, end) <==> pos <= |ts| && AssignmentExpression(d, ts, pos) == Ok(Parsed(e, end))
  { ReadsRule(d, AssignmentRule, ts, pos, e, end); }

  lemma ReadsMemberTail(d: Dialect, o: A.Expr, ts: seq<Token>, pos: nat, e: A.Expr, end: nat)
    ensures Reads(d, MemberTailRule(o), ts, pos, e, end) <==> pos <= |ts| && MemberTail(d, o, ts, pos) == Ok(Parsed(e, end))
  { ReadsRule(d, MemberTailRule(o), ts, pos, e, end); }

  lemma ReadsCallTail(d: Dialect, callee: A.Expr, ts: seq<Token>, pos: nat, e: A.Expr, end: nat)
    ensures Reads(d, CallTailRule(callee), ts, pos, e, end) <==> pos <= |ts| && CallTail(d, callee, ts, pos) == Ok(Parsed(e, end))
  { ReadsRule(d, CallTailRule(callee), ts, pos, e, end); }

  lemma ReadsBinaryTail(d: Dialect, p: Precedence, l: A.Expr, ts: seq<Token>, pos: nat, e: A.Expr, end: nat)
    ensures Reads(d, BinaryTailRule(p, l), ts, pos, e, end) <==> pos <= |ts| && BinaryTail(d, p, l, ts, pos) == Ok(Parsed(e, end))
  { ReadsRule(d, BinaryTailRule(p, l), ts, pos, e, end); }

  /** What a rule of the chain reads, followed by a token that continues none
      of the rules above it up to `top`, is what `top` reads. */
  lemma ClimbReads(d: Dialect, rule: Rule, top: Rule, ts: seq<Token>, pos: nat, e: A.Expr, end: nat)
    requires Level(rule) <= Level(top) <= 10
    requires pos < end < |ts| && Reads(d, rule, ts, pos, e, end)
    requires StopsBetween(Level(rule), Level(top), ts[end].kind)
    requires Level(rule) < 3 <= Level(top) ==> !IsPrefixOperator(ts[pos].kind)
    ensures Reads(d, top, ts, pos, e, end)
  {
    ReadsRule(d, rule, ts, pos, e, end);
    ReadsRule(d, top, ts, pos, e, end);
    RuleLevel(d, rule, ts, pos);
    RuleLevel(d, top, ts, pos);
    Climb(d, Level(rule), Level(top), ts, pos, e, end);
  }

  // ---------------------------------------------------------------------------
  // Operands and parenthesised groups

  lemma {:induction false} DecimalDigitsValue(n: nat)
    ensures DecimalValue(DecimalDigits(n)) == n
  {
    var s := DecimalDigits(n);
    if n < 10 {
      assert s[..|s| - 1] == [];
    } else {
      DecimalDigitsValue(n / 10);
      assert s[..|s| - 1] == DecimalDigits(n / 10);
    }
  }

  lemma NumberOperand(d: Dialect, n: nat, ts: seq<Token>, pos: nat)
    requires pos < |ts| && ts[pos] == Token(NUMBER, DecimalDigits(n))
    ensures Primary(d, ts, pos) == Ok(Parsed(A.NumericLiteral(n), pos + 1))
  {
    DecimalDigitsValue(n);
    assert Literal(d, ts, pos) == Ok(Parsed(A.NumericLiteral(n), pos + 1));
  }

  lemma StringOperand(d: Dialect, v: string, ts: seq<Token>, pos: nat)
    requires A.Quotable(v) && pos < |ts| && ts[pos] == Token(STRING, Quote(v))
    ensures Primary(d, ts, pos) == Ok(Parsed(A.StringLiteral(v), pos + 1))
  {
    QuoteLexeme(v);
    assert Literal(d, ts, pos) == Ok(Parsed(A.StringLiteral(v), pos + 1));
  }

  lemma BooleanOperand(d: Dialect, b: bool, ts: seq<Token>, pos: nat)
    requires pos < |ts| && ts[pos] == BooleanToken(d, b)
    ensures Primary(d, ts, pos) == Ok(Parsed(A.BooleanLiteral(b), pos + 1))
  {
    assert Literal(d, ts, pos) == Ok(Parsed(A.BooleanLiteral(b), pos + 1));
  }

  lemma NullOperand(d: Dialect, ts: seq<Token>, pos: nat)
    requires pos < |ts| && ts[pos] == NullToken(d)
    ensures Primary(d, ts, pos) == Ok(Parsed(A.NullLiteral, pos + 1))
  {
    assert Literal(d, ts, pos) == Ok(Parsed(A.NullLiteral, pos + 1));
  }

  lemma NameOperand(d: Dialect, name: string, ts: seq<Token>, pos: nat)
    requires pos < |ts| && ts[pos] == Token(IDENTIFIER, name)
    ensures Primary(d, ts, pos) == Ok(Parsed(A.Identifier(name), pos + 1))
  {
    assert Identifier(ts, pos) == Ok(Parsed(A.Identifier(name), pos + 1));
  }

  lemma ThisOperand(ts: seq<Token>, pos: nat)
    requires pos < |ts| && ts[pos].kind == KwThis
    ensures Primary(Web, ts, pos) == Ok(Parsed(A.ThisExpression, pos + 1))
  {
  }

  /** A one-token operand is read back by PrimaryExpression. */
  lemma OperandRoundTrip(d: Dialect, e: A.Expr, ts: seq<Token>, pos: nat, end: nat)
    requires Printed(d, e, ts, pos, end)
    requires e.Identifier? || e.ThisExpression? || e.NumericLiteral? || e.StringLiteral?
      || e.BooleanLiteral? || e.NullLiteral?
    ensures Reads(d, PrimaryRule, ts, pos, e, end)
  {
    PrintedRule(d, e, ts, pos, end);
    ReadsPrimary(d, ts, pos, e, end);
    AtHead(ts, pos, PrintExpr(d, e));
    match e
    case NumericLiteral(n) => NumberOperand(d, n, ts, pos);
    case StringLiteral(v) => StringOperand(d, v, ts, pos);
    case BooleanLiteral(b) => BooleanOperand(d, b, ts, pos);
    case NullLiteral => NullOperand(d, ts, pos);
    case Identifier(name) => NameOperand(d, name, ts, pos);
    case ThisExpression => ThisOperand(ts, pos);
  }

  // Each step of the parser is stated twice: on the parser's results, where
  // the proof is the parser's own definition, and on Reads facts, which is
  // the form the groups below chain together.

  /** Parentheses around an expression produce no node. */
  lemma ParenGroup(d: Dialect, e: A.Expr, ts: seq<Token>, pos: nat, close: nat)
    requires pos < close < |ts| && ts[pos] == LParen && ts[close] == RParen
    requires Reads(d, AssignmentRule, ts, pos + 1, e, close)
    ensures Reads(d, PrimaryRule, ts, pos, e, close + 1)
  {
    ReadsAssignment(d, ts, pos + 1, e, close);
    ParenParse(d, e, ts, pos, close);
    ReadsPrimary(d, ts, pos, e, close + 1);
  }

  lemma ParenParse(d: Dialect, e: A.Expr, ts: seq<Token>, pos: nat, close: nat)
    requires pos < close < |ts| && ts[pos] == LParen && ts[close] == RParen
    requires AssignmentExpression(d, ts, pos + 1) == Ok(Parsed(e, close))
    ensures Primary(d, ts, pos) == Ok(Parsed(e, close + 1))
  {
  }

  /** An operator of level `p` followed by its right operand extends the
      level's left operand; `)` then ends the level. */
  lemma BinaryTailStep(d: Dialect, p: Precedence, l: A.Expr, r: A.Expr, ts: seq<Token>, opPos: nat, close: nat)
    requires opPos < close < |ts| && ts[opPos].kind == OperatorKind(p) && ts[close] == RParen
    requires Reads(d, OperandRule(p), ts, opPos + 1, r, close)
    ensures Reads(d, BinaryTailRule(p, l), ts, opPos, Combine(p, ts[opPos].text, l, r), close)
  {
    ReadsOperand(d, p, ts, opPos + 1, r, close);
    BinaryTailParse(d, p, l, r, ts, opPos, close);
    ReadsBinaryTail(d, p, l, ts, opPos, Combine(p, ts[opPos].text, l, r), close);
  }

  lemma BinaryTailParse(d: Dialect, p: Precedence, l: A.Expr, r: A.Expr, ts: seq<Token>, opPos: nat, close: nat)
    requires opPos < close < |ts| && ts[opPos].kind == OperatorKind(p) && ts[close] == RParen
    requires Operand(d, p, ts, opPos + 1) == Ok(Parsed(r, close))
    ensures BinaryTail(d, p, l, ts, opPos) == Ok(Parsed(Combine(p, ts[opPos].text, l, r), close))
  {
    var e := Combine(p, ts[opPos].text, l, r);
    assert BinaryTail(d, p, e, ts, close) == Ok(Parsed(e, close));
  }

  lemma BinaryFromParts(d: Dialect, p: Precedence, l: A.Expr, ts: seq<Token>, pos: nat, mid: nat, e: A.Expr, end: nat)
    requires Reads(d, OperandRule(p), ts, pos, l, mid) && Reads(d, BinaryTailRule(p, l), ts, mid, e, end)
    ensures Reads(d, BinaryRule(p), ts, pos, e, end)
  {
    ReadsOperand(d, p, ts, pos, l, mid);
    ReadsBinaryTail(d, p, l, ts, mid, e, end);
    BinarySplit(d, p, l, ts, pos, mid, e, end);
    ReadsBinary(d, p, ts, pos, e, end);
  }

  lemma BinarySplit(d: Dialect, p: Precedence, l: A.Expr, ts: seq<Token>, pos: nat, mid: nat, e: A.Expr, end: nat)
    requires pos <= mid <= |ts|
    requires Operand(d, p, ts, pos) == Ok(Parsed(l, mid)) && BinaryTail(d, p, l, ts, mid) == Ok(Parsed(e, end))
    ensures Binary(d, p, ts, pos) == Ok(Parsed(e, end))
  {
  }

  /** An assignment operator after a target makes the top rule read the
      right-hand side and build the assignment. */
  lemma AssignmentStep(d: Dialect, op: string, l: A.Expr, r: A.Expr, ts: seq<Token>, pos: nat, opPos: nat, end: nat)
    requires opPos < |ts| && (ts[opPos].kind == SIMPLE_ASSIGN || ts[opPos].kind == COMPLEX_ASSIGN)
    requires ts[opPos].text == op && A.IsAssignmentTarget(l)
    requires Reads(d, BinaryRule(LogicalOr), ts, pos, l, opPos) && Reads(d, AssignmentRule, ts, opPos + 1, r, end)
    ensures Reads(d, AssignmentRule, ts, pos, A.AssignmentExpression(op, l, r), end)
  {
    ReadsBinary(d, LogicalOr, ts, pos, l, opPos);
    ReadsAssignment(d, ts, opPos + 1, r, end);
    AssignmentParse(d, op, l, r, ts, pos, opPos, end);
    ReadsAssignment(d, ts, pos, A.AssignmentExpression(op, l, r), end);
  }

  lemma AssignmentParse(d: Dialect, op: string, l: A.Expr, r: A.Expr, ts: seq<Token>, pos: nat, opPos: nat, end: nat)
    requires pos <= opPos < |ts| && (ts[opPos].kind == SIMPLE_ASSIGN || ts[opPos].kind == COMPLEX_ASSIGN)
    requires ts[opPos].text == op && A.IsAssignmentTarget(l)
    requires Binary(d, LogicalOr, ts, pos) == Ok(Parsed(l, opPos))
    requires AssignmentExpression(d, ts, opPos + 1) == Ok(Parsed(r, end))
    ensures AssignmentExpression(d, ts, pos) == Ok(Parsed(A.AssignmentExpression(op, l, r), end))
  {
  }

  /** A prefix operator applies to the UnaryExpression after it. */
  lemma UnaryStep(d: Dialect, op: string, a: A.Expr, ts: seq<Token>, pos: nat, end: nat)
    requires pos < |ts| && ts[pos] == Token(UnaryKind(op), op) && op in A.UnaryOperators
    requires Reads(d, UnaryRule, ts, pos + 1, a, end)
    ensures Reads(d, UnaryRule, ts, pos, A.UnaryExpression(op, a), end)
  {
    ReadsUnary(d, ts, pos + 1, a, end);
    UnaryParse(d, op, a, ts, pos, end);
    ReadsUnary(d, ts, pos, A.UnaryExpression(op, a), end);
  }

  lemma UnaryParse(d: Dialect, op: string, a: A.Expr, ts: seq<Token>, pos: nat, end: nat)
    requires pos < |ts| && ts[pos] == Token(UnaryKind(op), op) && op in A.UnaryOperators
    requires Unary(d, ts, pos + 1) == Ok(Parsed(a, end))
    ensures Unary(d, ts, pos) == Ok(Parsed(A.UnaryExpression(op, a), end))
  {
  }

  /** One argument list after the callee, then a token other than `(`. */
  lemma CallTailStep(d: Dialect, callee: A.Expr, args: seq<A.Expr>, ts: seq<Token>, pos: nat, close: nat)
    requires close < |ts| && ts[close] == RParen && ArgumentsRead(d, ts, pos, args, close)
    ensures Reads(d, CallTailRule(callee), ts, pos, A.CallExpression(callee, args), close)
  {
    ArgumentsReadRule(d, ts, pos, args, close);
    CallTailParse(d, callee, args, ts, pos, close);
    ReadsCallTail(d, callee, ts, pos, A.CallExpression(callee, args), close);
  }

  lemma CallTailParse(d: Dialect, callee: A.Expr, args: seq<A.Expr>, ts: seq<Token>, pos: nat, close: nat)
    requires pos <= close < |ts| && ts[close] == RParen && Arguments(d, ts, pos) == Ok(Parsed(args, close))
    ensures CallTail(d, callee, ts, pos) == Ok(Parsed(A.CallExpression(callee, args), close))
  {
  }

  lemma CallFromParts(d: Dialect, callee: A.Expr, ts: seq<Token>, pos: nat, mid: nat, e: A.Expr, end: nat)
    requires mid < |ts| && ts[mid].kind == OpenParen
    requires Reads(d, MemberRule, ts, pos, callee, mid) && Reads(d, CallTailRule(callee), ts, mid, e, end)
    ensures Reads(d, CallMemberRule, ts, pos, e, end)
  {
    ReadsMember(d, ts, pos, callee, mid);
    ReadsCallTail(d, callee, ts, mid, e, end);
    CallSplit(d, callee, ts, pos, mid, e, end);
    ReadsCallMember(d, ts, pos, e, end);
  }

  lemma CallSplit(d: Dialect, callee: A.Expr, ts: seq<Token>, pos: nat, mid: nat, e: A.Expr, end: nat)
    requires pos <= mid < |ts| && ts[mid].kind == OpenParen
    requires Member(d, ts, pos) == Ok(Parsed(callee, mid)) && CallTail(d, callee, ts, mid) == Ok(Parsed(e, end))
    ensures CallMember(d, ts, pos) == Ok(Parsed(e, end))
  {
  }

  /** The member loop stops at a token other than `.` and `[`. */
  lemma MemberTailStops(d: Dialect, o: A.Expr, ts: seq<Token>, pos: nat)
    requires pos < |ts| && ts[pos].kind != Dot && ts[pos].kind != OpenBracket
    ensures Reads(d, MemberTailRule(o), ts, pos, o, pos)
  {
    ReadsMemberTail(d, o, ts, pos, o, pos);
  }

  lemma MemberTailDot(d: Dialect, o: A.Expr, name: string, ts: seq<Token>, pos: nat, e: A.Expr, end: nat)
    requires pos + 2 <= |ts| && ts[pos].kind == Dot && ts[pos + 1] == Token(IDENTIFIER, name)
    requires Reads(d, MemberTailRule(A.MemberExpression(false, o, A.Identifier(name))), ts, pos + 2, e, end)
    ensures Reads(d, MemberTailRule(o), ts, pos, e, end)
  {
    ReadsMemberTail(d, A.MemberExpression(false, o, A.Identifier(name)), ts, pos + 2, e, end);
    MemberTailDotParse(d, o, name, ts, pos, e, end);
    ReadsMemberTail(d, o, ts, pos, e, end);
  }

  lemma MemberTailDotParse(d: Dialect, o: A.Expr, name: string, ts: seq<Token>, pos: nat, e: A.Expr, end: nat)
    requires pos + 2 <= |ts| && ts[pos].kind == Dot && ts[pos + 1] == Token(IDENTIFIER, name)
    requires MemberTail(d, A.MemberExpression(false, o, A.Identifier(name)), ts, pos + 2) == Ok(Parsed(e, end))
    ensures MemberTail(d, o, ts, pos) == Ok(Parsed(e, end))
  {
    assert Identifier(ts, pos + 1) == Ok(Parsed(A.Identifier(name), pos + 2));
  }

  lemma MemberTailIndex(d: Dialect, o: A.Expr, property: A.Expr, ts: seq<Token>, pos: nat, close: nat, e: A.Expr, end: nat)
    requires pos < close < |ts| && ts[pos].kind == OpenBracket && ts[close].kind == CloseBracket
    requires Reads(d, AssignmentRule, ts, pos + 1, property, close)
    requires Reads(d, MemberTailRule(A.MemberExpression(true, o, property)), ts, close + 1, e, end)
    ensures Reads(d, MemberTailRule(o), ts, pos, e, end)
  {
    ReadsAssignment(d, ts, pos + 1, property, close);
    ReadsMemberTail(d, A.MemberExpression(true, o, property), ts, close + 1, e, end);
    MemberTailIndexParse(d, o, property, ts, pos, close, e, end);
    ReadsMemberTail(d, o, ts, pos, e, end);
  }

  lemma MemberTailIndexParse(d: Dialect, o: A.Expr, property: A.Expr, ts: seq<Token>, pos: nat, close: nat, e: A.Expr, end: nat)
    requires pos < close < |ts| && ts[pos].kind == OpenBracket && ts[close].kind == CloseBracket
    requires AssignmentExpression(d, ts, pos + 1) == Ok(Parsed(property, close))
    requires MemberTail(d, A.MemberExpression(true, o, property), ts, close + 1) == Ok(Parsed(e, end))
    ensures MemberTail(d, o, ts, pos) == Ok(Parsed(e, end))
  {
  }

  lemma MemberFromParts(d: Dialect, o: A.Expr, ts: seq<Token>, pos: nat, mid: nat, e: A.Expr, end: nat)
    requires Reads(d, PrimaryRule, ts, pos, o, mid) && Reads(d, MemberTailRule(o), ts, mid, e, end)
    ensures Reads(d, MemberRule, ts, pos, e, end)
  {
    ReadsPrimary(d, ts, pos, o, mid);
    ReadsMemberTail(d, o, ts, mid, e, end);
    MemberSplit(d, o, ts, pos, mid, e, end);
    ReadsMember(d, ts, pos, e, end);
  }

  lemma MemberSplit(d: Dialect, o: A.Expr, ts: seq<Token>, pos: nat, mid: nat, e: A.Expr, end: nat)
    requires pos <= mid <= |ts|
    requires Primary(d, ts, pos) == Ok(Parsed(o, mid)) && MemberTail(d, o, ts, mid) == Ok(Parsed(e, end))
    ensures Member(d, ts, pos) == Ok(Parsed(e, end))
  {
  }

  /** `( l op r )` with `op` an operator of level `p`. */
  lemma OperatorGroup(d: Dialect, p: Precedence, op: string, l: A.Expr, r: A.Expr,
                      ts: seq<Token>, pos: nat, opPos: nat, close: nat)
    requires pos < opPos < close < |ts|
    requires ts[pos] == LParen && ts[opPos] == Token(OperatorKind(p), op) && ts[close] == RParen
    requires Reads(d, OperandRule(p), ts, pos + 1, l, opPos) && Reads(d, OperandRule(p), ts, opPos + 1, r, close)
    ensures Reads(d, PrimaryRule, ts, pos, Combine(p, op, l, r), close + 1)
  {
    var e := Combine(p, op, l, r);
    BinaryTailStep(d, p, l, r, ts, opPos, close);
    BinaryFromParts(d, p, l, ts, pos + 1, opPos, e, close);
    OperatorLevel(p);
    ClimbReads(d, BinaryRule(p), AssignmentRule, ts, pos + 1, e, close);
    ParenGroup(d, e, ts, pos, close);
  }

  /** `( l = r )`. */
  lemma AssignmentGroup(d: Dialect, op: string, l: A.Expr, r: A.Expr,
                        ts: seq<Token>, pos: nat, opPos: nat, close: nat)
    requires pos < opPos < close < |ts|
    requires ts[pos] == LParen && ts[close] == RParen
    requires ts[opPos].kind == SIMPLE_ASSIGN || ts[opPos].kind == COMPLEX_ASSIGN
    requires ts[opPos].text == op && A.IsAssignmentTarget(l)
    requires Reads(d, BinaryRule(LogicalOr), ts, pos + 1, l, opPos) && Reads(d, AssignmentRule, ts, opPos + 1, r, close)
    ensures Reads(d, PrimaryRule, ts, pos, A.AssignmentExpression(op, l, r), close + 1)
  {
    AssignmentStep(d, op, l, r, ts, pos + 1, opPos, close);
    ParenGroup(d, A.AssignmentExpression(op, l, r), ts, pos, close);
  }

  /** `( op a )`. */
  lemma UnaryGroup(d: Dialect, op: string, a: A.Expr, ts: seq<Token>, pos: nat, close: nat)
    requires pos + 2 < close < |ts|
    requires ts[pos] == LParen && ts[pos + 1] == Token(UnaryKind(op), op) && ts[close] == RParen
    requires op in A.UnaryOperators
    requires Reads(d, UnaryRule, ts, pos + 2, a, close)
    ensures Reads(d, PrimaryRule, ts, pos, A.UnaryExpression(op, a), close + 1)
  {
    var e := A.UnaryExpression(op, a);
    UnaryStep(d, op, a, ts, pos + 1, close);
    ClimbReads(d, UnaryRule, AssignmentRule, ts, pos + 1, e, close);
    ParenGroup(d, e, ts, pos, close);
  }

  /** `( callee ( args ) )`. */
  lemma CallGroup(d: Dialect, callee: A.Expr, args: seq<A.Expr>, ts: seq<Token>, pos: nat, argPos: nat, close: nat)
    requires pos < argPos < close < |ts|
    requires ts[pos] == LParen && ts[argPos] == LParen && ts[close] == RParen
    requires !IsPrefixOperator(ts[pos + 1].kind)
    requires Reads(d, MemberRule, ts, pos + 1, callee, argPos) && ArgumentsRead(d, ts, argPos, args, close)
    ensures Reads(d, PrimaryRule, ts, pos, A.CallExpression(callee, args), close + 1)
  {
    var e := A.CallExpression(callee, args);
    CallTailStep(d, callee, args, ts, argPos, close);
    CallFromParts(d, callee, ts, pos + 1, argPos, e, close);
    ClimbReads(d, CallMemberRule, AssignmentRule, ts, pos + 1, e, close);
    ParenGroup(d, e, ts, pos, close);
  }

  /** `( o . name )`. */
  lemma DotGroup(d: Dialect, o: A.Expr, name: string, ts: seq<Token>, pos: nat, dotPos: nat)
    requires pos < dotPos && dotPos + 2 < |ts|
    requires ts[pos] == LParen && ts[dotPos] == Token(Dot, ".")
    requires ts[dotPos + 1] == Token(IDENTIFIER, name) && ts[dotPos + 2] == RParen
    requires !IsPrefixOperator(ts[pos + 1].kind)
    requires Reads(d, PrimaryRule, ts, pos + 1, o, dotPos)
    ensures Reads(d, PrimaryRule, ts, pos, A.MemberExpression(false, o, A.Identifier(name)), dotPos + 3)
  {
    var e := A.MemberExpression(false, o, A.Identifier(name));
    MemberTailStops(d, e, ts, dotPos + 2);
    MemberTailDot(d, o, name, ts, dotPos, e, dotPos + 2);
    MemberFromParts(d, o, ts, pos + 1, dotPos, e, dotPos + 2);
    ClimbReads(d, MemberRule, AssignmentRule, ts, pos + 1, e, dotPos + 2);
    ParenGroup(d, e, ts, pos, dotPos + 2);
  }

  /** `( o [ property ] )`. */
  lemma IndexGroup(d: Dialect, o: A.Expr, property: A.Expr, ts: seq<Token>, pos: nat, bracket: nat, close: nat)
    requires pos < bracket < close - 1 && close < |ts|
    requires ts[pos] == LParen && ts[bracket] == Token(OpenBracket, "[")
    requires ts[close - 1] == Token(CloseBracket, "]") && ts[close] == RParen
    requires !IsPrefixOperator(ts[pos + 1].kind)
    requires Reads(d, PrimaryRule, ts, pos + 1, o, bracket) && Reads(d, AssignmentRule, ts, bracket + 1, property, close - 1)
    ensures Reads(d, PrimaryRule, ts, pos, A.MemberExpression(true, o, property), close + 1)
  {
    var e := A.MemberExpression(true, o, property);
    MemberTailStops(d, e, ts, close);
    MemberTailIndex(d, o, property, ts, bracket, close - 1, e, close);
    MemberFromParts(d, o, ts, pos + 1, bracket, e, close);
    ClimbReads(d, MemberRule, AssignmentRule, ts, pos + 1, e, close);
    ParenGroup(d, e, ts, pos, close);
  }

  // ---------------------------------------------------------------------------
  // Printed expressions inside token sequences

  /** `e` is well formed and its printed tokens occupy `ts[pos..end]`. The
      delay `k` does not change the meaning (PrintedRule). */
  predicate Printed(d: Dialect, e: A.Expr, ts: seq<Token>, pos: nat, end: nat, k: Delay := Later(Later(Now)))
  {
    match k
    case Now => A.WfExpr(d, e) && end == pos + |PrintExpr(d, e)| && At(ts, pos, PrintExpr(d, e))
    case Later(j) => Printed(d, e, ts, pos, end, j)
  }

  lemma PrintedRule(d: Dialect, e: A.Expr, ts: seq<Token>, pos: nat, end: nat)
    ensures Printed(d, e, ts, pos, end)
        <==> A.WfExpr(d, e) && end == pos + |PrintExpr(d, e)| && At(ts, pos, PrintExpr(d, e))
  {
    assert Printed(d, e, ts, pos, end, Later(Now)) <==> Printed(d, e, ts, pos, end, Now);
  }

  /** The arguments are well formed and their comma-separated list occupies
      `ts[pos..end]`. */
  predicate PrintedArguments(d: Dialect, args: seq<A.Expr>, ts: seq<Token>, pos: nat, end: nat, k: Delay := Later(Later(Now)))
  {
    match k
    case Now =>
      && (forall a :: a in args ==> A.WfExpr(d, a))
      && end == pos + |PrintArguments(d, args)| && At(ts, pos, PrintArguments(d, args))
    case Later(j) => PrintedArguments(d, args, ts, pos, end, j)
  }

  lemma PrintedArgumentsRule(d: Dialect, args: seq<A.Expr>, ts: seq<Token>, pos: nat, end: nat)
    ensures PrintedArguments(d, args, ts, pos, end)
        <==> && (forall a :: a in args ==> A.WfExpr(d, a))
             && end == pos + |PrintArguments(d, args)| && At(ts, pos, PrintArguments(d, args))
  {
    assert PrintedArguments(d, args, ts, pos, end, Later(Now)) <==> PrintedArguments(d, args, ts, pos, end, Now);
  }

  /** `, a` for each `a` in `rest` occupies `ts[pos..end]`. */
  predicate PrintedMore(d: Dialect, rest: seq<A.Expr>, ts: seq<Token>, pos: nat, end: nat, k: Delay := Later(Later(Now)))
  {
    match k
    case Now =>
      && (forall a :: a in rest ==> A.WfExpr(d, a))
      && end == pos + |PrintMoreArguments(d, rest)| && At(ts, pos, PrintMoreArguments(d, rest))
    case Later(j) => PrintedMore(d, rest, ts, pos, end, j)
  }

  lemma PrintedMoreRule(d: Dialect, rest: seq<A.Expr>, ts: seq<Token>, pos: nat, end: nat)
    ensures PrintedMore(d, rest, ts, pos, end)
        <==> && (forall a :: a in rest ==> A.WfExpr(d, a))
             && end == pos + |PrintMoreArguments(d, rest)| && At(ts, pos, PrintMoreArguments(d, rest))
  {
    assert PrintedMore(d, rest, ts, pos, end, Later(Now)) <==> PrintedMore(d, rest, ts, pos, end, Now);
  }

  /** A printed expression is not empty and does not start with a prefix
      operator. */
  lemma PrintedStarts(d: Dialect, e: A.Expr, ts: seq<Token>, pos: nat, end: nat)
    requires Printed(d, e, ts, pos, end)
    ensures pos < end <= |ts| && !IsPrefixOperator(ts[pos].kind) && ts[pos].kind != CloseParen
  {
    PrintedRule(d, e, ts, pos, end);
    AtRule(ts, pos, PrintExpr(d, e));
    AtHead(ts, pos, PrintExpr(d, e));
    PrintExprStarts(d, e);
  }

  /** `( L t R )` at `pos`: where each of its parts lies. */
  lemma GroupParts(ts: seq<Token>, pos: nat, L: seq<Token>, t: Token, R: seq<Token>)
    requires At(ts, pos, [LParen] + L + [t] + R + [RParen])
    ensures pos + 2 + |L| + |R| < |ts|
    ensures ts[pos] == LParen && At(ts, pos + 1, L) && ts[pos + 1 + |L|] == t
    ensures At(ts, pos + 2 + |L|, R) && ts[pos + 2 + |L| + |R|] == RParen
  {
    At5(ts, pos, [LParen], L, [t], R, [RParen]);
    AtOne(ts, pos, LParen);
    AtOne(ts, pos + 1 + |L|, t);
    AtOne(ts, pos + 2 + |L| + |R|, RParen);
  }

  lemma AssignmentShape(d: Dialect, op: string, l: A.Expr, r: A.Expr, ts: seq<Token>, pos: nat, end: nat)
    returns (opPos: nat, close: nat)
    requires Printed(d, A.AssignmentExpression(op, l, r), ts, pos, end)
    ensures pos < opPos < close < |ts| && end == close + 1
    ensures ts[pos] == LParen && ts[opPos] == Token(AssignmentKind(op), op) && ts[close] == RParen
    ensures Printed(d, l, ts, pos + 1, opPos) && Printed(d, r, ts, opPos + 1, close)
    ensures op in A.AssignmentOperators && A.IsAssignmentTarget(l)
  {
    PrintedRule(d, A.AssignmentExpression(op, l, r), ts, pos, end);
    PrintedRule(d, l, ts, pos + 1, pos + 1 + |PrintExpr(d, l)|);
    PrintedRule(d, r, ts, pos + 2 + |PrintExpr(d, l)|, pos + 2 + |PrintExpr(d, l)| + |PrintExpr(d, r)|);
    var L, R := PrintExpr(d, l), PrintExpr(d, r);
    GroupParts(ts, pos, L, Token(AssignmentKind(op), op), R);
    opPos, close := pos + 1 + |L|, pos + 2 + |L| + |R|;
  }

  lemma LogicalShape(d: Dialect, op: string, l: A.Expr, r: A.Expr, ts: seq<Token>, pos: nat, end: nat)
    returns (opPos: nat, close: nat)
    requires Printed(d, A.LogicalExpression(op, l, r), ts, pos, end)
    ensures pos < opPos < close < |ts| && end == close + 1
    ensures ts[pos] == LParen && ts[opPos] == Token(OperatorKind(LogicalPrecedence(op)), op) && ts[close] == RParen
    ensures Printed(d, l, ts, pos + 1, opPos) && Printed(d, r, ts, opPos + 1, close)
    ensures Combine(LogicalPrecedence(op), op, l, r) == A.LogicalExpression(op, l, r)
  {
    PrintedRule(d, A.LogicalExpression(op, l, r), ts, pos, end);
    PrintedRule(d, l, ts, pos + 1, pos + 1 + |PrintExpr(d, l)|);
    PrintedRule(d, r, ts, pos + 2 + |PrintExpr(d, l)|, pos + 2 + |PrintExpr(d, l)| + |PrintExpr(d, r)|);
    var L, R := PrintExpr(d, l), PrintExpr(d, r);
    GroupParts(ts, pos, L, Token(LogicalKind(op), op), R);
    opPos, close := pos + 1 + |L|, pos + 2 + |L| + |R|;
  }

  lemma BinaryShape(d: Dialect, op: string, l: A.Expr, r: A.Expr, ts: seq<Token>, pos: nat, end: nat)
    returns (opPos: nat, close: nat)
    requires Printed(d, A.BinaryExpression(op, l, r), ts, pos, end)
    ensures pos < opPos < close < |ts| && end == close + 1
    ensures ts[pos] == LParen && ts[opPos] == Token(OperatorKind(OperatorPrecedence(op)), op) && ts[close] == RParen
    ensures Printed(d, l, ts, pos + 1, opPos) && Printed(d, r, ts, opPos + 1, close)
    ensures Combine(OperatorPrecedence(op), op, l, r) == A.BinaryExpression(op, l, r)
  {
    PrintedRule(d, A.BinaryExpression(op, l, r), ts, pos, end);
    PrintedRule(d, l, ts, pos + 1, pos + 1 + |PrintExpr(d, l)|);
    PrintedRule(d, r, ts, pos + 2 + |PrintExpr(d, l)|, pos + 2 + |PrintExpr(d, l)| + |PrintExpr(d, r)|);
    var L, R := PrintExpr(d, l), PrintExpr(d, r);
    GroupParts(ts, pos, L, Token(BinaryKind(op), op), R);
    opPos, close := pos + 1 + |L|, pos + 2 + |L| + |R|;
  }

  lemma UnaryShape(d: Dialect, op: string, a: A.Expr, ts: seq<Token>, pos: nat, end: nat)
    returns (close: nat)
    requires Printed(d, A.UnaryExpression(op, a), ts, pos, end)
    ensures pos + 2 < close < |ts| && end == close + 1
    ensures ts[pos] == LParen && ts[pos + 1] == Token(UnaryKind(op), op) && ts[close] == RParen
    ensures Printed(d, a, ts, pos + 2, close) && op in A.UnaryOperators
  {
    PrintedRule(d, A.UnaryExpression(op, a), ts, pos, end);
    PrintedRule(d, a, ts, pos + 2, pos + 2 + |PrintExpr(d, a)|);
    var X := PrintExpr(d, a);
    var opToken := Token(UnaryKind(op), op);
    assert PrintExpr(d, A.UnaryExpression(op, a)) == [LParen, opToken] + X + [RParen];
    At3(ts, pos, [LParen, opToken], X, [RParen]);
    AtTwo(ts, pos, LParen, opToken);
    AtOne(ts, pos + 2 + |X|, RParen);
    close := pos + 2 + |X|;
  }

  lemma CallShape(d: Dialect, callee: A.Expr, args: seq<A.Expr>, ts: seq<Token>, pos: nat, end: nat)
    returns (argPos: nat, close: nat)
    requires Printed(d, A.CallExpression(callee, args), ts, pos, end)
    ensures pos < argPos < close - 1 && close < |ts| && end == close + 1
    ensures ts[pos] == LParen && ts[argPos] == LParen && ts[close - 1] == RParen && ts[close] == RParen
    ensures Printed(d, callee, ts, pos + 1, argPos) && PrintedArguments(d, args, ts, argPos + 1, close - 1)
  {
    PrintedRule(d, A.CallExpression(callee, args), ts, pos, end);
    PrintedRule(d, callee, ts, pos + 1, pos + 1 + |PrintExpr(d, callee)|);
    PrintedArgumentsRule(d, args, ts, pos + 2 + |PrintExpr(d, callee)|, pos + 2 + |PrintExpr(d, callee)| + |PrintArguments(d, args)|);
    var C, X := PrintExpr(d, callee), PrintArguments(d, args);
    assert PrintExpr(d, A.CallExpression(callee, args)) == [LParen] + C + [LParen] + X + [RParen, RParen];
    At5(ts, pos, [LParen], C, [LParen], X, [RParen, RParen]);
    AtOne(ts, pos, LParen);
    AtOne(ts, pos + 1 + |C|, LParen);
    AtTwo(ts, pos + 2 + |C| + |X|, RParen, RParen);
    argPos, close := pos + 1 + |C|, pos + 3 + |C| + |X|;
  }

  lemma IndexShape(d: Dialect, o: A.Expr, property: A.Expr, ts: seq<Token>, pos: nat, end: nat)
    returns (bracket: nat, close: nat)
    requires Printed(d, A.MemberExpression(true, o, property), ts, pos, end)
    ensures pos < bracket < close - 1 && close < |ts| && end == close + 1
    ensures ts[pos] == LParen && ts[bracket] == Token(OpenBracket, "[")
    ensures ts[close - 1] == Token(CloseBracket, "]") && ts[close] == RParen
    ensures Printed(d, o, ts, pos + 1, bracket) && Printed(d, property, ts, bracket + 1, close - 1)
  {
    PrintedRule(d, A.MemberExpression(true, o, property), ts, pos, end);
    PrintedRule(d, o, ts, pos + 1, pos + 1 + |PrintExpr(d, o)|);
    PrintedRule(d, property, ts, pos + 2 + |PrintExpr(d, o)|, pos + 2 + |PrintExpr(d, o)| + |PrintExpr(d, property)|);
    var O, P := PrintExpr(d, o), PrintExpr(d, property);
    var openB, closeB := Token(OpenBracket, "["), Token(CloseBracket, "]");
    assert PrintExpr(d, A.MemberExpression(true, o, property)) == [LParen] + O + [openB] + P + [closeB, RParen];
    At5(ts, pos, [LParen], O, [openB], P, [closeB, RParen]);
    AtOne(ts, pos, LParen);
    AtOne(ts, pos + 1 + |O|, openB);
    AtTwo(ts, pos + 2 + |O| + |P|, closeB, RParen);
    bracket, close := pos + 1 + |O|, pos + 3 + |O| + |P|;
  }

  lemma DotShape(d: Dialect, o: A.Expr, property: A.Expr, ts: seq<Token>, pos: nat, end: nat)
    returns (dotPos: nat)
    requires Printed(d, A.MemberExpression(false, o, property), ts, pos, end)
    ensures pos < dotPos && dotPos + 2 < |ts| && end == dotPos + 3
    ensures ts[pos] == LParen && ts[dotPos] == Token(Dot, ".")
    ensures property.Identifier? && ts[dotPos + 1] == Token(IDENTIFIER, property.name) && ts[dotPos + 2] == RParen
    ensures Printed(d, o, ts, pos + 1, dotPos)
  {
    PrintedRule(d, A.MemberExpression(false, o, property), ts, pos, end);
    PrintedRule(d, o, ts, pos + 1, pos + 1 + |PrintExpr(d, o)|);
    var O, P := PrintExpr(d, o), [Token(IDENTIFIER, property.name)];
    assert PrintExpr(d, property) == P;
    GroupParts(ts, pos, O, Token(Dot, "."), P);
    AtOne(ts, pos + 2 + |O|, Token(IDENTIFIER, property.name));
    dotPos := pos + 1 + |O|;
  }

  lemma ArgumentsShape(d: Dialect, args: seq<A.Expr>, ts: seq<Token>, pos: nat, end: nat)
    returns (next: nat)
    requires |args| > 0 && PrintedArguments(d, args, ts, pos, end)
    ensures pos < next <= end
    ensures Printed(d, args[0], ts, pos, next) && PrintedMore(d, args[1..], ts, next, end)
  {
    PrintedArgumentsRule(d, args, ts, pos, end);
    PrintedRule(d, args[0], ts, pos, pos + |PrintExpr(d, args[0])|);
    PrintedMoreRule(d, args[1..], ts, pos + |PrintExpr(d, args[0])|, end);
    At2(ts, pos, PrintExpr(d, args[0]), PrintMoreArguments(d, args[1..]));
    assert args[0] in args;
    next := pos + |PrintExpr(d, args[0])|;
  }

  lemma MoreArgumentsShape(d: Dialect, rest: seq<A.Expr>, ts: seq<Token>, pos: nat, end: nat)
    returns (next: nat)
    requires |rest| > 0 && PrintedMore(d, rest, ts, pos, end)
    ensures pos < |ts| && ts[pos] == CommaToken && pos + 1 < next <= end
    ensures Printed(d, rest[0], ts, pos + 1, next) && PrintedMore(d, rest[1..], ts, next, end)
  {
    PrintedMoreRule(d, rest, ts, pos, end);
    PrintedRule(d, rest[0], ts, pos + 1, pos + 1 + |PrintExpr(d, rest[0])|);
    PrintedMoreRule(d, rest[1..], ts, pos + 1 + |PrintExpr(d, rest[0])|, end);
    At3(ts, pos, [CommaToken], PrintExpr(d, rest[0]), PrintMoreArguments(d, rest[1..]));
    AtOne(ts, pos, CommaToken);
    assert rest[0] in rest;
    next := pos + 1 + |PrintExpr(d, rest[0])|;
  }

  /** The token after an argument: `,` before the next one, `)` after the last. */
  lemma ArgumentEnd(d: Dialect, rest: seq<A.Expr>, ts: seq<Token>, pos: nat, end: nat)
    requires PrintedMore(d, rest, ts, pos, end) && end < |ts| && ts[end] == RParen
    ensures pos <= end && pos < |ts| && (ts[pos] == CommaToken || ts[pos] == RParen)
  {
    if |rest| > 0 {
      var _ := MoreArgumentsShape(d, rest, ts, pos, end);
    } else {
      PrintedMoreRule(d, rest, ts, pos, end);
    }
  }

  // ---------------------------------------------------------------------------
  // Expressions

  /** The level of a binary operator lexeme. */
  function OperatorPrecedence(op: string): Precedence {
    if op in A.EqualityOperators then Equality
    else if op in A.RelationalOperators then Relational
    else if op in A.AdditiveOperators then Additive
    else Multiplicative
  }

  function LogicalPrecedence(op: string): Precedence {
    if op == "||" then LogicalOr else LogicalAnd
  }

  /** A printed expression is read back by PrimaryExpression. */
  lemma {:induction false} PrimaryRoundTrip(d: Dialect, e: A.Expr, ts: seq<Token>, pos: nat, end: nat)
    requires Printed(d, e, ts, pos, end)
    ensures Reads(d, PrimaryRule, ts, pos, e, end)
    decreases e, 1
  {
    match e
    case AssignmentExpression(op, l, r) =>
      var opPos, close := AssignmentShape(d, op, l, r, ts, pos, end);
      AssignmentRoundTrip(d, op, l, r, ts, pos, opPos, close);
    case LogicalExpression(op, l, r) =>
      var opPos, close := LogicalShape(d, op, l, r, ts, pos, end);
      LogicalRoundTrip(d, LogicalPrecedence(op), op, l, r, ts, pos, opPos, close);
    case BinaryExpression(op, l, r) =>
      var opPos, close := BinaryShape(d, op, l, r, ts, pos, end);
      BinaryRoundTrip(d, OperatorPrecedence(op), op, l, r, ts, pos, opPos, close);
    case UnaryExpression(op, a) =>
      var close := UnaryShape(d, op, a, ts, pos, end);
      UnaryRoundTrip(d, op, a, ts, pos, close);
    case CallExpression(callee, args) =>
      var argPos, close := CallShape(d, callee, args, ts, pos, end);
      CallRoundTrip(d, callee, args, ts, pos, argPos, close);
    case MemberExpression(computed, o, property) =>
      if computed {
        var bracket, close := IndexShape(d, o, property, ts, pos, end);
        IndexRoundTrip(d, o, property, ts, pos, bracket, close);
      } else {
        var dotPos := DotShape(d, o, property, ts, pos, end);
        DotRoundTrip(d, o, property.name, ts, pos, dotPos);
      }
    case _ => OperandRoundTrip(d, e, ts, pos, end);
  }

  /** A printed expression followed by a token that continues none of the
      rules up to `rule` is read back by `rule`. */
  lemma {:induction false} ExprAt(d: Dialect, rule: Rule, e: A.Expr, ts: seq<Token>, pos: nat, end: nat)
    requires Level(rule) <= 10
    requires Printed(d, e, ts, pos, end) && end < |ts| && StopsBetween(0, Level(rule), ts[end].kind)
    ensures Reads(d, rule, ts, pos, e, end)
    decreases e, 2
  {
    PrimaryRoundTrip(d, e, ts, pos, end);
    PrintedStarts(d, e, ts, pos, end);
    ClimbReads(d, PrimaryRule, rule, ts, pos, e, end);
  }

  /** `( l op r )` with `op` a logical operator. */
  lemma {:induction false} LogicalRoundTrip(d: Dialect, p: Precedence, op: string, l: A.Expr, r: A.Expr,
                                            ts: seq<Token>, pos: nat, opPos: nat, close: nat)
    requires Combine(p, op, l, r) == A.LogicalExpression(op, l, r)
    requires pos < opPos < close < |ts|
    requires ts[pos] == LParen && ts[opPos] == Token(OperatorKind(p), op) && ts[close] == RParen
    requires Printed(d, l, ts, pos + 1, opPos) && Printed(d, r, ts, opPos + 1, close)
    ensures Reads(d, PrimaryRule, ts, pos, A.LogicalExpression(op, l, r), close + 1)
    decreases A.LogicalExpression(op, l, r), 0
  {
    PrintedStarts(d, l, ts, pos + 1, opPos);
    OperatorLevel(p);
    ExprAt(d, OperandRule(p), l, ts, pos + 1, opPos);
    ExprAt(d, OperandRule(p), r, ts, opPos + 1, close);
    OperatorGroup(d, p, op, l, r, ts, pos, opPos, close);
  }

  /** `( l op r )` with `op` an arithmetic, relational or equality operator. */
  lemma {:induction false} BinaryRoundTrip(d: Dialect, p: Precedence, op: string, l: A.Expr, r: A.Expr,
                                           ts: seq<Token>, pos: nat, opPos: nat, close: nat)
    requires Combine(p, op, l, r) == A.BinaryExpression(op, l, r)
    requires pos < opPos < close < |ts|
    requires ts[pos] == LParen && ts[opPos] == Token(OperatorKind(p), op) && ts[close] == RParen
    requires Printed(d, l, ts, pos + 1, opPos) && Printed(d, r, ts, opPos + 1, close)
    ensures Reads(d, PrimaryRule, ts, pos, A.BinaryExpression(op, l, r), close + 1)
    decreases A.BinaryExpression(op, l, r), 0
  {
    PrintedStarts(d, l, ts, pos + 1, opPos);
    OperatorLevel(p);
    ExprAt(d, OperandRule(p), l, ts, pos + 1, opPos);
    ExprAt(d, OperandRule(p), r, ts, opPos + 1, close);
    OperatorGroup(d, p, op, l, r, ts, pos, opPos, close);
  }

  /** `( l = r )`. */
  lemma {:induction false} AssignmentRoundTrip(d: Dialect, op: string, l: A.Expr, r: A.Expr,
                                               ts: seq<Token>, pos: nat, opPos: nat, close: nat)
    requires pos < opPos < close < |ts| && A.IsAssignmentTarget(l)
    requires ts[pos] == LParen && ts[opPos] == Token(AssignmentKind(op), op) && ts[close] == RParen
    requires Printed(d, l, ts, pos + 1, opPos) && Printed(d, r, ts, opPos + 1, close)
    ensures Reads(d, PrimaryRule, ts, pos, A.AssignmentExpression(op, l, r), close + 1)
    decreases A.AssignmentExpression(op, l, r), 0
  {
    ExprAt(d, BinaryRule(LogicalOr), l, ts, pos + 1, opPos);
    ExprAt(d, AssignmentRule, r, ts, opPos + 1, close);
    AssignmentGroup(d, op, l, r, ts, pos, opPos, close);
  }

  /** `( op a )`. */
  lemma {:induction false} UnaryRoundTrip(d: Dialect, op: string, a: A.Expr, ts: seq<Token>, pos: nat, close: nat)
    requires op in A.UnaryOperators && pos + 2 < close < |ts|
    requires ts[pos] == LParen && ts[pos + 1] == Token(UnaryKind(op), op) && ts[close] == RParen
    requires Printed(d, a, ts, pos + 2, close)
    ensures Reads(d, PrimaryRule, ts, pos, A.UnaryExpression(op, a), close + 1)
    decreases A.UnaryExpression(op, a), 0
  {
    ExprAt(d, UnaryRule, a, ts, pos + 2, close);
    UnaryGroup(d, op, a, ts, pos, close);
  }

  /** `( callee ( args ) )`. */
  lemma {:induction false} CallRoundTrip(d: Dialect, callee: A.Expr, args: seq<A.Expr>,
                                         ts: seq<Token>, pos: nat, argPos: nat, close: nat)
    requires pos < argPos < close - 1 && close < |ts|
    requires ts[pos] == LParen && ts[argPos] == LParen && ts[close - 1] == RParen && ts[close] == RParen
    requires Printed(d, callee, ts, pos + 1, argPos) && PrintedArguments(d, args, ts, argPos + 1, close - 1)
    ensures Reads(d, PrimaryRule, ts, pos, A.CallExpression(callee, args), close + 1)
    decreases A.CallExpression(callee, args), 0
  {
    PrintedStarts(d, callee, ts, pos + 1, argPos);
    ExprAt(d, MemberRule, callee, ts, pos + 1, argPos);
    ArgumentsRoundTrip(d, args, ts, argPos, close - 1);
    CallGroup(d, callee, args, ts, pos, argPos, close);
  }

  /** `( o [ property ] )`. */
  lemma {:induction false} IndexRoundTrip(d: Dialect, o: A.Expr, property: A.Expr,
                                          ts: seq<Token>, pos: nat, bracket: nat, close: nat)
    requires pos < bracket < close - 1 && close < |ts|
    requires ts[pos] == LParen && ts[bracket] == Token(OpenBracket, "[")
    requires ts[close - 1] == Token(CloseBracket, "]") && ts[close] == RParen
    requires Printed(d, o, ts, pos + 1, bracket) && Printed(d, property, ts, bracket + 1, close - 1)
    ensures Reads(d, PrimaryRule, ts, pos, A.MemberExpression(true, o, property), close + 1)
    decreases A.MemberExpression(true, o, property), 0
  {
    PrintedStarts(d, o, ts, pos + 1, bracket);
    PrimaryRoundTrip(d, o, ts, pos + 1, bracket);
    ExprAt(d, AssignmentRule, property, ts, bracket + 1, close - 1);
    IndexGroup(d, o, property, ts, pos, bracket, close);
  }

  /** `( o . name )`. */
  lemma {:induction false} DotRoundTrip(d: Dialect, o: A.Expr, name: string, ts: seq<Token>, pos: nat, dotPos: nat)
    requires pos < dotPos && dotPos + 2 < |ts|
    requires ts[pos] == LParen && ts[dotPos] == Token(Dot, ".")
    requires ts[dotPos + 1] == Token(IDENTIFIER, name) && ts[dotPos + 2] == RParen
    requires Printed(d, o, ts, pos + 1, dotPos)
    ensures Reads(d, PrimaryRule, ts, pos, A.MemberExpression(false, o, A.Identifier(name)), dotPos + 3)
    decreases A.MemberExpression(false, o, A.Identifier(name)), 0
  {
    PrintedStarts(d, o, ts, pos + 1, dotPos);
    PrimaryRoundTrip(d, o, ts, pos + 1, dotPos);
    DotGroup(d, o, name, ts, pos, dotPos);
  }

  // ---------------------------------------------------------------------------
  // Argument lists

  lemma NoArguments(d: Dialect, ts: seq<Token>, pos: nat, close: nat)
    requires pos < |ts| && ts[pos] == LParen && PrintedArguments(d, [], ts, pos + 1, close)
    requires close < |ts| && ts[close] == RParen
    ensures ArgumentsRead(d, ts, pos, [], close + 1)
  {
    PrintedArgumentsRule(d, [], ts, pos + 1, close);
    ArgumentsReadRule(d, ts, pos, [], close + 1);
  }

  lemma ArgumentsFromList(d: Dialect, first: A.Expr, args: seq<A.Expr>, ts: seq<Token>, pos: nat, next: nat, close: nat)
    requires pos + 1 < next <= close < |ts| && ts[pos] == LParen && ts[close] == RParen
    requires ts[pos + 1].kind != CloseParen
    requires Reads(d, AssignmentRule, ts, pos + 1, first, next)
    requires ListTailReads(d, [first], ts, next, args, close)
    ensures ArgumentsRead(d, ts, pos, args, close + 1)
  {
    ReadsAssignment(d, ts, pos + 1, first, next);
    ListTailReadsRule(d, [first], ts, next, args, close);
    ArgumentsParse(d, first, args, ts, pos, next, close);
    ArgumentsReadRule(d, ts, pos, args, close + 1);
  }

  lemma ArgumentsParse(d: Dialect, first: A.Expr, args: seq<A.Expr>, ts: seq<Token>, pos: nat, next: nat, close: nat)
    requires pos + 1 < next <= close < |ts| && ts[pos] == LParen && ts[close] == RParen
    requires ts[pos + 1].kind != CloseParen
    requires AssignmentExpression(d, ts, pos + 1) == Ok(Parsed(first, next))
    requires ArgumentListTail(d, [first], ts, next) == Ok(Parsed(args, close))
    ensures Arguments(d, ts, pos) == Ok(Parsed(args, close + 1))
  {
    assert ArgumentList(d, ts, pos + 1) == Ok(Parsed(args, close));
  }

  lemma ArgumentListEnds(d: Dialect, args: seq<A.Expr>, ts: seq<Token>, pos: nat, close: nat)
    requires PrintedMore(d, [], ts, pos, close) && close < |ts| && ts[close] == RParen
    ensures ListTailReads(d, args, ts, pos, args, close)
  {
    PrintedMoreRule(d, [], ts, pos, close);
    ListTailReadsRule(d, args, ts, pos, args, close);
  }

  lemma ArgumentListStep(d: Dialect, prefix: seq<A.Expr>, a: A.Expr, args: seq<A.Expr>,
                         ts: seq<Token>, pos: nat, next: nat, close: nat)
    requires pos < next <= close <= |ts| && ts[pos] == CommaToken
    requires Reads(d, AssignmentRule, ts, pos + 1, a, next)
    requires ListTailReads(d, prefix + [a], ts, next, args, close)
    ensures ListTailReads(d, prefix, ts, pos, args, close)
  {
    ReadsAssignment(d, ts, pos + 1, a, next);
    ListTailReadsRule(d, prefix + [a], ts, next, args, close);
    ArgumentListParse(d, prefix, a, args, ts, pos, next, close);
    ListTailReadsRule(d, prefix, ts, pos, args, close);
  }

  lemma ArgumentListParse(d: Dialect, prefix: seq<A.Expr>, a: A.Expr, args: seq<A.Expr>,
                          ts: seq<Token>, pos: nat, next: nat, close: nat)
    requires pos < next <= close <= |ts| && ts[pos] == CommaToken
    requires AssignmentExpression(d, ts, pos + 1) == Ok(Parsed(a, next))
    requires ArgumentListTail(d, prefix + [a], ts, next) == Ok(Parsed(args, close))
    ensures ArgumentListTail(d, prefix, ts, pos) == Ok(Parsed(args, close))
  {
  }

  /** `( args )` is read back by Arguments. */
  lemma {:induction false} ArgumentsRoundTrip(d: Dialect, args: seq<A.Expr>, ts: seq<Token>, pos: nat, close: nat)
    requires pos < |ts| && ts[pos] == LParen && PrintedArguments(d, args, ts, pos + 1, close)
    requires close < |ts| && ts[close] == RParen
    ensures ArgumentsRead(d, ts, pos, args, close + 1)
    decreases args, 1
  {
    if |args| == 0 {
      NoArguments(d, ts, pos, close);
    } else {
      var next := ArgumentsShape(d, args, ts, pos + 1, close);
      PrintedStarts(d, args[0], ts, pos + 1, next);
      ArgumentEnd(d, args[1..], ts, next, close);
      ExprAt(d, AssignmentRule, args[0], ts, pos + 1, next);
      MoreArgumentsRoundTrip(d, [args[0]], args[1..], ts, next, close);
      assert [args[0]] + args[1..] == args;
      ArgumentsFromList(d, args[0], args, ts, pos, next, close);
    }
  }

  /** `, a` for each remaining argument, then `)`, is read back by the
      argument loop. */
  lemma {:induction false} MoreArgumentsRoundTrip(d: Dialect, prefix: seq<A.Expr>, rest: seq<A.Expr>,
                                                 ts: seq<Token>, pos: nat, close: nat)
    requires PrintedMore(d, rest, ts, pos, close) && close < |ts| && ts[close] == RParen
    ensures ListTailReads(d, prefix, ts, pos, prefix + rest, close)
    decreases rest, 0
  {
    if |rest| == 0 {
      assert prefix + rest == prefix;
      ArgumentListEnds(d, prefix, ts, pos, close);
    } else {
      var next := MoreArgumentsShape(d, rest, ts, pos, close);
      ArgumentEnd(d, rest[1..], ts, next, close);
      ExprAt(d, AssignmentRule, rest[0], ts, pos + 1, next);
      MoreArgumentsRoundTrip(d, prefix + [rest[0]], rest[1..], ts, next, close);
      assert prefix + [rest[0]] + rest[1..] == prefix + rest;
      ArgumentListStep(d, prefix, rest[0], prefix + rest, ts, pos, next, close);
    }
  }
}
