/** Parsing what the printer prints gives back the statements, and so the
    whole program: `Program(d, PrintProgram(d, p)) == Ok(p)` for every
    well-formed program `p` of dialect `d`. Each statement form has four
    lemmas: where the printed tokens of its parts lie (`...Shape`), what the
    parser returns when each part is read back (`...Parse`, stated on the
    parser's results), the same step on the delayed facts (`...Step`), and
    the round trip that puts the three together (`...RoundTrip`). Only the
    `...RoundTrip` lemmas state something about the model; the `...Shape`,
    `...Parse` and `...Step` lemmas, many with empty bodies, and the delayed
    predicates (see `RoundTrip.Delay`) are proof steps that control how far
    the solver unfolds the parser at a time. */
module StatementRoundTrip {
  import opened Wrappers
  import opened Tokens
  import A = Ast
  import opened Parser
  import opened Printer
  import opened RoundTrip

  const IfToken := Token(KwIf, "if")
  const ElseToken := Token(KwElse, "else")
  const WhileToken := Token(KwWhile, "while")
  const ForToken := Token(KwFor, "for")
  const FunctionToken := Token(KwFunction, "function")
  const ReturnToken := Token(KwReturn, "return")
  const ClassToken := Token(KwClass, "class")
  const LBrace := Token(OpenBrace, "{")
  const RBrace := Token(CloseBrace, "}")
  const AssignToken := Token(SIMPLE_ASSIGN, "=")

  // ---------------------------------------------------------------------------
  // Printed statements inside token sequences

  /** `s` is well formed and its printed tokens occupy `ts[pos..end]`. */
  predicate StmtPrinted(d: Dialect, s: A.Stmt, ts: seq<Token>, pos: nat, end: nat, k: Delay := Later(Later(Now)))
  {
    match k
    case Now => A.WfStmt(d, s) && end == pos + |PrintStmt(d, s)| && At(ts, pos, PrintStmt(d, s))
    case Later(j) => StmtPrinted(d, s, ts, pos, end, j)
  }

  lemma StmtPrintedRule(d: Dialect, s: A.Stmt, ts: seq<Token>, pos: nat, end: nat)
    ensures StmtPrinted(d, s, ts, pos, end)
        <==> A.WfStmt(d, s) && end == pos + |PrintStmt(d, s)| && At(ts, pos, PrintStmt(d, s))
  {
    assert StmtPrinted(d, s, ts, pos, end, Later(Now)) <==> StmtPrinted(d, s, ts, pos, end, Now);
  }

  lemma StmtPrintedIntro(d: Dialect, s: A.Stmt, ts: seq<Token>, pos: nat, end: nat)
    requires A.WfStmt(d, s) && end == pos + |PrintStmt(d, s)| && At(ts, pos, PrintStmt(d, s))
    ensures StmtPrinted(d, s, ts, pos, end)
  {
    StmtPrintedRule(d, s, ts, pos, end);
  }

  lemma StmtPrintedElim(d: Dialect, s: A.Stmt, ts: seq<Token>, pos: nat, end: nat)
    requires StmtPrinted(d, s, ts, pos, end)
    ensures A.WfStmt(d, s) && end == pos + |PrintStmt(d, s)| && At(ts, pos, PrintStmt(d, s))
  {
    StmtPrintedRule(d, s, ts, pos, end);
  }

  /** The statements `ss` are well formed and occupy `ts[pos..end]`. */
  predicate StmtsPrinted(d: Dialect, ss: seq<A.Stmt>, ts: seq<Token>, pos: nat, end: nat, k: Delay := Later(Later(Now)))
  {
    match k
    case Now =>
      && (forall x :: x in ss ==> A.WfStmt(d, x))
      && end == pos + |PrintStmts(d, ss)| && At(ts, pos, PrintStmts(d, ss))
    case Later(j) => StmtsPrinted(d, ss, ts, pos, end, j)
  }

  lemma StmtsPrintedRule(d: Dialect, ss: seq<A.Stmt>, ts: seq<Token>, pos: nat, end: nat)
    ensures StmtsPrinted(d, ss, ts, pos, end)
        <==> && (forall x :: x in ss ==> A.WfStmt(d, x))
             && end == pos + |PrintStmts(d, ss)| && At(ts, pos, PrintStmts(d, ss))
  {
    assert StmtsPrinted(d, ss, ts, pos, end, Later(Now)) <==> StmtsPrinted(d, ss, ts, pos, end, Now);
  }

  lemma StmtsPrintedIntro(d: Dialect, ss: seq<A.Stmt>, ts: seq<Token>, pos: nat, end: nat)
    requires && (forall x :: x in ss ==> A.WfStmt(d, x)) && end == pos + |PrintStmts(d, ss)| && At(ts, pos, PrintStmts(d, ss))
    ensures StmtsPrinted(d, ss, ts, pos, end)
  {
    StmtsPrintedRule(d, ss, ts, pos, end);
  }

  lemma StmtsPrintedElim(d: Dialect, ss: seq<A.Stmt>, ts: seq<Token>, pos: nat, end: nat)
    requires StmtsPrinted(d, ss, ts, pos, end)
    ensures && (forall x :: x in ss ==> A.WfStmt(d, x)) && end == pos + |PrintStmts(d, ss)| && At(ts, pos, PrintStmts(d, ss))
  {
    StmtsPrintedRule(d, ss, ts, pos, end);
  }

  /** The declarator `v` is well formed and occupies `ts[pos..end]`. */
  predicate DeclaratorPrinted(d: Dialect, v: A.Declarator, ts: seq<Token>, pos: nat, end: nat)
  {
    A.WfDeclarator(d, v) && end == pos + |PrintDeclarator(d, v)| && At(ts, pos, PrintDeclarator(d, v))
  }

  /** `, v` for each `v` in `vs` occupies `ts[pos..end]`. */
  predicate MoreDeclaratorsPrinted(d: Dialect, vs: seq<A.Declarator>, ts: seq<Token>, pos: nat, end: nat)
  {
    && (forall v :: v in vs ==> A.WfDeclarator(d, v))
    && end == pos + |PrintMoreDeclarators(d, vs)| && At(ts, pos, PrintMoreDeclarators(d, vs))
  }

  /** An optional expression: nothing, or the printed expression. */
  predicate OptPrinted(d: Dialect, o: Option<A.Expr>, ts: seq<Token>, pos: nat, end: nat)
  {
    match o
    case None => end == pos
    case Some(x) => Printed(d, x, ts, pos, end)
  }

  /** A printed expression starts with `(` or its one operand token, none of
      which starts a statement of another form. */
  lemma PrintedOperandStart(d: Dialect, e: A.Expr, ts: seq<Token>, pos: nat, end: nat)
    requires Printed(d, e, ts, pos, end)
    ensures pos < end <= |ts| && StartsOperand(ts[pos].kind)
  {
    PrintedRule(d, e, ts, pos, end);
    AtRule(ts, pos, PrintExpr(d, e));
    AtHead(ts, pos, PrintExpr(d, e));
    PrintExprStarts(d, e);
  }

  /** A printed statement starts with neither `else` nor `}`. */
  lemma StmtStart(d: Dialect, s: A.Stmt, ts: seq<Token>, pos: nat, end: nat)
    requires StmtPrinted(d, s, ts, pos, end)
    ensures pos < end <= |ts| && ts[pos].kind != KwElse && ts[pos].kind != CloseBrace
  {
    StmtPrintedElim(d, s, ts, pos, end);
    AtRule(ts, pos, PrintStmt(d, s));
    AtHead(ts, pos, PrintStmt(d, s));
  }

  /** An identifier token is read as an Identifier. */
  lemma IdentifierAt(ts: seq<Token>, pos: nat, id: string)
    requires pos < |ts| && ts[pos] == Token(IDENTIFIER, id)
    ensures Identifier(ts, pos) == Ok(Parsed(A.Identifier(id), pos + 1))
  {
  }

  // ---------------------------------------------------------------------------
  // Splitting printed token sequences at known positions

  lemma Parts2(ts: seq<Token>, pos: nat, a: seq<Token>, b: seq<Token>, p1: nat)
    requires At(ts, pos, a + b) && p1 == pos + |a|
    ensures At(ts, pos, a) && At(ts, p1, b) && p1 + |b| <= |ts|
  {
    At2(ts, pos, a, b);
    AtRule(ts, pos, a + b);
  }

  lemma Parts3(ts: seq<Token>, pos: nat, a: seq<Token>, b: seq<Token>, c: seq<Token>, p1: nat, p2: nat)
    requires At(ts, pos, a + b + c) && p1 == pos + |a| && p2 == p1 + |b|
    ensures At(ts, pos, a) && At(ts, p1, b) && At(ts, p2, c) && p2 + |c| <= |ts|
  {
    At3(ts, pos, a, b, c);
    AtRule(ts, pos, a + b + c);
  }

  lemma Parts4(ts: seq<Token>, pos: nat, a: seq<Token>, b: seq<Token>, c: seq<Token>, e: seq<Token>,
               p1: nat, p2: nat, p3: nat)
    requires At(ts, pos, a + b + c + e) && p1 == pos + |a| && p2 == p1 + |b| && p3 == p2 + |c|
    ensures At(ts, pos, a) && At(ts, p1, b) && At(ts, p2, c) && At(ts, p3, e) && p3 + |e| <= |ts|
  {
    At4(ts, pos, a, b, c, e);
    AtRule(ts, pos, a + b + c + e);
  }

  lemma Parts5(ts: seq<Token>, pos: nat, a: seq<Token>, b: seq<Token>, c: seq<Token>, e: seq<Token>, f: seq<Token>,
               p1: nat, p2: nat, p3: nat, p4: nat)
    requires At(ts, pos, a + b + c + e + f) && p1 == pos + |a| && p2 == p1 + |b| && p3 == p2 + |c| && p4 == p3 + |e|
    ensures At(ts, pos, a) && At(ts, p1, b) && At(ts, p2, c) && At(ts, p3, e) && At(ts, p4, f) && p4 + |f| <= |ts|
  {
    At5(ts, pos, a, b, c, e, f);
    AtRule(ts, pos, a + b + c + e + f);
  }

  // ---------------------------------------------------------------------------
  // What the statement rules return

  /** Statement reads `s` from `ts[pos..end]`. */
  predicate StatementReads(d: Dialect, ts: seq<Token>, pos: nat, s: A.Stmt, end: nat, k: Delay := Later(Later(Now)))
  {
    match k
    case Now => pos <= |ts| && Statement(d, ts, pos) == Ok(Parsed(s, end))
    case Later(j) => StatementReads(d, ts, pos, s, end, j)
  }

  lemma StatementReadsRule(d: Dialect, ts: seq<Token>, pos: nat, s: A.Stmt, end: nat)
    ensures StatementReads(d, ts, pos, s, end) <==> pos <= |ts| && Statement(d, ts, pos) == Ok(Parsed(s, end))
  {
    assert StatementReads(d, ts, pos, s, end, Later(Now)) <==> StatementReads(d, ts, pos, s, end, Now);
  }

  lemma StatementReadsIntro(d: Dialect, ts: seq<Token>, pos: nat, s: A.Stmt, end: nat)
    requires pos <= |ts| && Statement(d, ts, pos) == Ok(Parsed(s, end))
    ensures StatementReads(d, ts, pos, s, end)
  {
    StatementReadsRule(d, ts, pos, s, end);
  }

  lemma StatementReadsElim(d: Dialect, ts: seq<Token>, pos: nat, s: A.Stmt, end: nat)
    requires StatementReads(d, ts, pos, s, end)
    ensures pos <= |ts| && Statement(d, ts, pos) == Ok(Parsed(s, end))
  {
    StatementReadsRule(d, ts, pos, s, end);
  }

  /** BlockStatement reads `s` from `ts[pos..end]`. */
  predicate BlockReads(d: Dialect, ts: seq<Token>, pos: nat, s: A.Stmt, end: nat, k: Delay := Later(Later(Now)))
  {
    match k
    case Now => pos <= |ts| && BlockStatement(d, ts, pos) == Ok(Parsed(s, end))
    case Later(j) => BlockReads(d, ts, pos, s, end, j)
  }

  lemma BlockReadsRule(d: Dialect, ts: seq<Token>, pos: nat, s: A.Stmt, end: nat)
    ensures BlockReads(d, ts, pos, s, end) <==> pos <= |ts| && BlockStatement(d, ts, pos) == Ok(Parsed(s, end))
  {
    assert BlockReads(d, ts, pos, s, end, Later(Now)) <==> BlockReads(d, ts, pos, s, end, Now);
  }

  lemma BlockReadsIntro(d: Dialect, ts: seq<Token>, pos: nat, s: A.Stmt, end: nat)
    requires pos <= |ts| && BlockStatement(d, ts, pos) == Ok(Parsed(s, end))
    ensures BlockReads(d, ts, pos, s, end)
  {
    BlockReadsRule(d, ts, pos, s, end);
  }

  lemma BlockReadsElim(d: Dialect, ts: seq<Token>, pos: nat, s: A.Stmt, end: nat)
    requires BlockReads(d, ts, pos, s, end)
    ensures pos <= |ts| && BlockStatement(d, ts, pos) == Ok(Parsed(s, end))
  {
    BlockReadsRule(d, ts, pos, s, end);
  }

  /** VariableStatement reads `s` from `ts[pos..end]`. */
  predicate VariableReads(d: Dialect, ts: seq<Token>, pos: nat, s: A.Stmt, end: nat, k: Delay := Later(Later(Now)))
  {
    match k
    case Now => pos <= |ts| && VariableStatement(d, ts, pos) == Ok(Parsed(s, end))
    case Later(j) => VariableReads(d, ts, pos, s, end, j)
  }

  lemma VariableReadsRule(d: Dialect, ts: seq<Token>, pos: nat, s: A.Stmt, end: nat)
    ensures VariableReads(d, ts, pos, s, end) <==> pos <= |ts| && VariableStatement(d, ts, pos) == Ok(Parsed(s, end))
  {
    assert VariableReads(d, ts, pos, s, end, Later(Now)) <==> VariableReads(d, ts, pos, s, end, Now);
  }

  lemma VariableReadsIntro(d: Dialect, ts: seq<Token>, pos: nat, s: A.Stmt, end: nat)
    requires pos <= |ts| && VariableStatement(d, ts, pos) == Ok(Parsed(s, end))
    ensures VariableReads(d, ts, pos, s, end)
  {
    VariableReadsRule(d, ts, pos, s, end);
  }

  lemma VariableReadsElim(d: Dialect, ts: seq<Token>, pos: nat, s: A.Stmt, end: nat)
    requires VariableReads(d, ts, pos, s, end)
    ensures pos <= |ts| && VariableStatement(d, ts, pos) == Ok(Parsed(s, end))
  {
    VariableReadsRule(d, ts, pos, s, end);
  }

  /** The statement loop, having read `list`, reads on to `ss` and stops at
      `end`. */
  predicate ListReads(d: Dialect, stop: Option<Kind>, list: seq<A.Stmt>, ts: seq<Token>, pos: nat, ss: seq<A.Stmt>, end: nat,
                      k: Delay := Later(Later(Now)))
  {
    match k
    case Now => pos <= |ts| && StatementListTail(d, stop, list, ts, pos) == Ok(Parsed(ss, end))
    case Later(j) => ListReads(d, stop, list, ts, pos, ss, end, j)
  }

  lemma ListReadsRule(d: Dialect, stop: Option<Kind>, list: seq<A.Stmt>, ts: seq<Token>, pos: nat, ss: seq<A.Stmt>, end: nat)
    ensures ListReads(d, stop, list, ts, pos, ss, end)
        <==> pos <= |ts| && StatementListTail(d, stop, list, ts, pos) == Ok(Parsed(ss, end))
  {
    assert ListReads(d, stop, list, ts, pos, ss, end, Later(Now)) <==> ListReads(d, stop, list, ts, pos, ss, end, Now);
  }

  lemma ListReadsIntro(d: Dialect, stop: Option<Kind>, list: seq<A.Stmt>, ts: seq<Token>, pos: nat, ss: seq<A.Stmt>, end: nat)
    requires pos <= |ts| && StatementListTail(d, stop, list, ts, pos) == Ok(Parsed(ss, end))
    ensures ListReads(d, stop, list, ts, pos, ss, end)
  {
    ListReadsRule(d, stop, list, ts, pos, ss, end);
  }

  lemma ListReadsElim(d: Dialect, stop: Option<Kind>, list: seq<A.Stmt>, ts: seq<Token>, pos: nat, ss: seq<A.Stmt>, end: nat)
    requires ListReads(d, stop, list, ts, pos, ss, end)
    ensures pos <= |ts| && StatementListTail(d, stop, list, ts, pos) == Ok(Parsed(ss, end))
  {
    ListReadsRule(d, stop, list, ts, pos, ss, end);
  }

  /** The declarator loop, having read `list`, reads on to `vs` and stops at
      `end`. */
  predicate DeclaratorsReads(d: Dialect, list: seq<A.Declarator>, ts: seq<Token>, pos: nat, vs: seq<A.Declarator>, end: nat,
                             k: Delay := Later(Later(Now)))
  {
    match k
    case Now => pos <= |ts| && VariableDeclarationTail(d, list, ts, pos) == Ok(Parsed(vs, end))
    case Later(j) => DeclaratorsReads(d, list, ts, pos, vs, end, j)
  }

  lemma DeclaratorsReadsRule(d: Dialect, list: seq<A.Declarator>, ts: seq<Token>, pos: nat, vs: seq<A.Declarator>, end: nat)
    ensures DeclaratorsReads(d, list, ts, pos, vs, end)
        <==> pos <= |ts| && VariableDeclarationTail(d, list, ts, pos) == Ok(Parsed(vs, end))
  {
    assert DeclaratorsReads(d, list, ts, pos, vs, end, Later(Now)) <==> DeclaratorsReads(d, list, ts, pos, vs, end, Now);
  }

  lemma DeclaratorsReadsIntro(d: Dialect, list: seq<A.Declarator>, ts: seq<Token>, pos: nat, vs: seq<A.Declarator>, end: nat)
    requires pos <= |ts| && VariableDeclarationTail(d, list, ts, pos) == Ok(Parsed(vs, end))
    ensures DeclaratorsReads(d, list, ts, pos, vs, end)
  {
    DeclaratorsReadsRule(d, list, ts, pos, vs, end);
  }

  lemma DeclaratorsReadsElim(d: Dialect, list: seq<A.Declarator>, ts: seq<Token>, pos: nat, vs: seq<A.Declarator>, end: nat)
    requires DeclaratorsReads(d, list, ts, pos, vs, end)
    ensures pos <= |ts| && VariableDeclarationTail(d, list, ts, pos) == Ok(Parsed(vs, end))
  {
    DeclaratorsReadsRule(d, list, ts, pos, vs, end);
  }

  /** An optional expression read back at `pos`, where the optional part is
      absent exactly when the lookahead has kind `stop`. */
  predicate OptReads(d: Dialect, o: Option<A.Expr>, ts: seq<Token>, pos: nat, end: nat, stop: Kind)
  {
    pos < |ts| &&
    match o
    case None => end == pos && ts[pos].kind == stop
    case Some(x) => ts[pos].kind != stop && Reads(d, AssignmentRule, ts, pos, x, end)
  }

  // ---------------------------------------------------------------------------
  // Optional expressions

  lemma OptionalParse(d: Dialect, o: Option<A.Expr>, ts: seq<Token>, pos: nat, end: nat, stop: Kind)
    requires OptReads(d, o, ts, pos, end, stop)
    ensures OptionalExpression(d, ts, pos, ts[pos].kind == stop) == Ok(Parsed(o, end))
  {
    if o.Some? {
      ReadsAssignment(d, ts, pos, o.value, end);
    }
  }

  /** An optional expression followed by `;` or `)`. */
  lemma OptionalRoundTrip(d: Dialect, o: Option<A.Expr>, ts: seq<Token>, pos: nat, end: nat, stop: Kind)
    requires stop == Semicolon || stop == CloseParen
    requires OptPrinted(d, o, ts, pos, end) && end < |ts| && ts[end].kind == stop
    ensures OptReads(d, o, ts, pos, end, stop)
  {
    if o.Some? {
      PrintedOperandStart(d, o.value, ts, pos, end);
      ExprAt(d, AssignmentRule, o.value, ts, pos, end);
    }
  }

  // ---------------------------------------------------------------------------
  // Which rule Statement applies

  lemma StatementIsIf(d: Dialect, ts: seq<Token>, pos: nat)
    requires pos < |ts| && ts[pos].kind == KwIf
    ensures Statement(d, ts, pos) == IfStatement(d, ts, pos)
  {
  }

  lemma StatementIsWhile(d: Dialect, ts: seq<Token>, pos: nat)
    requires pos < |ts| && ts[pos].kind == KwWhile
    ensures Statement(d, ts, pos) == WhileStatement(d, ts, pos)
  {
  }

  lemma StatementIsFor(ts: seq<Token>, pos: nat)
    requires pos < |ts| && ts[pos].kind == KwFor
    ensures Statement(Web, ts, pos) == ForStatement(ts, pos)
  {
  }

  lemma StatementIsFunction(d: Dialect, ts: seq<Token>, pos: nat)
    requires pos < |ts| && ts[pos].kind == KwFunction
    ensures Statement(d, ts, pos) == FunctionDeclaration(d, ts, pos)
  {
  }

  lemma StatementIsEmpty(d: Dialect, ts: seq<Token>, pos: nat)
    requires pos < |ts| && ts[pos].kind == Semicolon
    ensures Statement(d, ts, pos) == EmptyStatement(ts, pos)
  {
  }

  lemma StatementIsBlock(d: Dialect, ts: seq<Token>, pos: nat)
    requires pos < |ts| && ts[pos].kind == OpenBrace
    ensures Statement(d, ts, pos) == BlockStatement(d, ts, pos)
  {
  }

  lemma StatementIsVariable(d: Dialect, ts: seq<Token>, pos: nat)
    requires pos < |ts| && ts[pos].kind == DeclarationKeyword(d)
    ensures Statement(d, ts, pos) == VariableStatement(d, ts, pos)
  {
  }

  lemma StatementIsReturn(d: Dialect, ts: seq<Token>, pos: nat)
    requires pos < |ts| && ts[pos].kind == KwReturn
    ensures Statement(d, ts, pos) == ReturnStatement(d, ts, pos)
  {
  }

  lemma StatementIsClass(ts: seq<Token>, pos: nat)
    requires pos < |ts| && ts[pos].kind == KwClass
    ensures Statement(Src, ts, pos) == ClassDeclaration(ts, pos)
  {
  }

  /** A token that starts an expression starts an expression statement. */
  lemma StatementIsExpression(d: Dialect, ts: seq<Token>, pos: nat)
    requires pos < |ts| && StartsOperand(ts[pos].kind)
    ensures Statement(d, ts, pos) == ExpressionStatement(d, ts, pos)
  {
    StatementIsSimple(d, ts, pos);
    SimpleIsExpression(d, ts, pos);
  }

  lemma StatementIsSimple(d: Dialect, ts: seq<Token>, pos: nat)
    requires pos < |ts| && StartsOperand(ts[pos].kind)
    ensures Statement(d, ts, pos) == SimpleStatement(d, ts, pos)
  {
  }

  lemma SimpleIsExpression(d: Dialect, ts: seq<Token>, pos: nat)
    requires pos < |ts| && StartsOperand(ts[pos].kind)
    ensures SimpleStatement(d, ts, pos) == ExpressionStatement(d, ts, pos)
  {
  }

  // ---------------------------------------------------------------------------
  // `;`

  lemma EmptyParse(d: Dialect, ts: seq<Token>, pos: nat)
    requires pos < |ts| && ts[pos] == Semi
    ensures Statement(d, ts, pos) == Ok(Parsed(A.EmptyStatement, pos + 1))
  {
    StatementIsEmpty(d, ts, pos);
  }

  lemma EmptyRoundTrip(d: Dialect, ts: seq<Token>, pos: nat, end: nat)
    requires StmtPrinted(d, A.EmptyStatement, ts, pos, end)
    ensures StatementReads(d, ts, pos, A.EmptyStatement, end)
  {
    StmtPrintedElim(d, A.EmptyStatement, ts, pos, end);
    AtOne(ts, pos, Semi);
    EmptyParse(d, ts, pos);
    StatementReadsIntro(d, ts, pos, A.EmptyStatement, end);
  }

  // ---------------------------------------------------------------------------
  // `e ;`

  lemma ExpressionStatementShape(d: Dialect, e: A.Expr, ts: seq<Token>, pos: nat, end: nat)
    returns (semi: nat)
    requires StmtPrinted(d, A.ExpressionStatement(e), ts, pos, end)
    ensures pos < semi < |ts| && end == semi + 1 && ts[semi] == Semi && Printed(d, e, ts, pos, semi)
  {
    StmtPrintedElim(d, A.ExpressionStatement(e), ts, pos, end);
    var E := PrintExpr(d, e);
    At2(ts, pos, E, [Semi]);
    AtOne(ts, pos + |E|, Semi);
    semi := pos + |E|;
    PrintedRule(d, e, ts, pos, semi);
  }

  lemma ExpressionStatementParse(d: Dialect, e: A.Expr, ts: seq<Token>, pos: nat, semi: nat)
    requires pos < semi < |ts| && ts[semi].kind == Semicolon
    requires AssignmentExpression(d, ts, pos) == Ok(Parsed(e, semi))
    ensures ExpressionStatement(d, ts, pos) == Ok(Parsed(A.ExpressionStatement(e), semi + 1))
  {
  }

  lemma ExpressionStatementStep(d: Dialect, e: A.Expr, ts: seq<Token>, pos: nat, semi: nat)
    requires pos < semi < |ts| && StartsOperand(ts[pos].kind) && ts[semi].kind == Semicolon
    requires Reads(d, AssignmentRule, ts, pos, e, semi)
    ensures StatementReads(d, ts, pos, A.ExpressionStatement(e), semi + 1)
  {
    ReadsAssignment(d, ts, pos, e, semi);
    ExpressionStatementParse(d, e, ts, pos, semi);
    StatementIsExpression(d, ts, pos);
    StatementReadsIntro(d, ts, pos, A.ExpressionStatement(e), semi + 1);
  }

  lemma ExpressionStatementRoundTrip(d: Dialect, e: A.Expr, ts: seq<Token>, pos: nat, end: nat)
    requires StmtPrinted(d, A.ExpressionStatement(e), ts, pos, end)
    ensures StatementReads(d, ts, pos, A.ExpressionStatement(e), end)
  {
    var semi := ExpressionStatementShape(d, e, ts, pos, end);
    PrintedOperandStart(d, e, ts, pos, semi);
    ExprAt(d, AssignmentRule, e, ts, pos, semi);
    ExpressionStatementStep(d, e, ts, pos, semi);
  }

  // ---------------------------------------------------------------------------
  // Declarations

  /** VariableDeclarator reads `v` from `ts[pos..end]`. */
  predicate DeclaratorReads(d: Dialect, ts: seq<Token>, pos: nat, v: A.Declarator, end: nat, k: Delay := Later(Later(Now)))
  {
    match k
    case Now => pos <= |ts| && VariableDeclarator(d, ts, pos) == Ok(Parsed(v, end))
    case Later(j) => DeclaratorReads(d, ts, pos, v, end, j)
  }

  lemma DeclaratorReadsRule(d: Dialect, ts: seq<Token>, pos: nat, v: A.Declarator, end: nat)
    ensures DeclaratorReads(d, ts, pos, v, end) <==> pos <= |ts| && VariableDeclarator(d, ts, pos) == Ok(Parsed(v, end))
  {
    assert DeclaratorReads(d, ts, pos, v, end, Later(Now)) <==> DeclaratorReads(d, ts, pos, v, end, Now);
  }

  lemma DeclaratorReadsIntro(d: Dialect, ts: seq<Token>, pos: nat, v: A.Declarator, end: nat)
    requires pos <= |ts| && VariableDeclarator(d, ts, pos) == Ok(Parsed(v, end))
    ensures DeclaratorReads(d, ts, pos, v, end)
  {
    DeclaratorReadsRule(d, ts, pos, v, end);
  }

  lemma DeclaratorReadsElim(d: Dialect, ts: seq<Token>, pos: nat, v: A.Declarator, end: nat)
    requires DeclaratorReads(d, ts, pos, v, end)
    ensures pos <= |ts| && VariableDeclarator(d, ts, pos) == Ok(Parsed(v, end))
  {
    DeclaratorReadsRule(d, ts, pos, v, end);
  }

  /** The declarators `vs`, at least one, are well formed and occupy
      `ts[pos..end]`. */
  predicate DeclaratorsPrinted(d: Dialect, vs: seq<A.Declarator>, ts: seq<Token>, pos: nat, end: nat, k: Delay := Later(Later(Now)))
  {
    match k
    case Now =>
      && |vs| > 0 && (forall v :: v in vs ==> A.WfDeclarator(d, v))
      && end == pos + |PrintDeclarators(d, vs)| && At(ts, pos, PrintDeclarators(d, vs))
    case Later(j) => DeclaratorsPrinted(d, vs, ts, pos, end, j)
  }

  lemma DeclaratorsPrintedRule(d: Dialect, vs: seq<A.Declarator>, ts: seq<Token>, pos: nat, end: nat)
    ensures DeclaratorsPrinted(d, vs, ts, pos, end)
        <==> && |vs| > 0 && (forall v :: v in vs ==> A.WfDeclarator(d, v))
             && end == pos + |PrintDeclarators(d, vs)| && At(ts, pos, PrintDeclarators(d, vs))
  {
    assert DeclaratorsPrinted(d, vs, ts, pos, end, Later(Now)) <==> DeclaratorsPrinted(d, vs, ts, pos, end, Now);
  }

  lemma DeclaratorsPrintedIntro(d: Dialect, vs: seq<A.Declarator>, ts: seq<Token>, pos: nat, end: nat)
    requires && |vs| > 0 && (forall v :: v in vs ==> A.WfDeclarator(d, v)) && end == pos + |PrintDeclarators(d, vs)| && At(ts, pos, PrintDeclarators(d, vs))
    ensures DeclaratorsPrinted(d, vs, ts, pos, end)
  {
    DeclaratorsPrintedRule(d, vs, ts, pos, end);
  }

  lemma DeclaratorsPrintedElim(d: Dialect, vs: seq<A.Declarator>, ts: seq<Token>, pos: nat, end: nat)
    requires DeclaratorsPrinted(d, vs, ts, pos, end)
    ensures && |vs| > 0 && (forall v :: v in vs ==> A.WfDeclarator(d, v)) && end == pos + |PrintDeclarators(d, vs)| && At(ts, pos, PrintDeclarators(d, vs))
  {
    DeclaratorsPrintedRule(d, vs, ts, pos, end);
  }

  lemma DeclaratorShape(d: Dialect, v: A.Declarator, ts: seq<Token>, pos: nat, end: nat)
    requires DeclaratorPrinted(d, v, ts, pos, end)
    ensures pos < end <= |ts| && ts[pos] == Token(IDENTIFIER, v.id)
    ensures v.init.None? ==> end == pos + 1
    ensures v.init.Some? ==> pos + 2 < end && ts[pos + 1] == AssignToken && Printed(d, v.init.value, ts, pos + 2, end)
  {
    AtRule(ts, pos, PrintDeclarator(d, v));
    match v.init
    case None =>
      assert PrintDeclarator(d, v) == [Token(IDENTIFIER, v.id)];
      AtOne(ts, pos, Token(IDENTIFIER, v.id));
    case Some(x) =>
      var X := PrintExpr(d, x);
      assert PrintDeclarator(d, v) == [Token(IDENTIFIER, v.id), AssignToken] + X;
      Parts2(ts, pos, [Token(IDENTIFIER, v.id), AssignToken], X, pos + 2);
      AtTwo(ts, pos, Token(IDENTIFIER, v.id), AssignToken);
      PrintedRule(d, x, ts, pos + 2, end);
  }

  lemma DeclaratorParse(d: Dialect, v: A.Declarator, ts: seq<Token>, pos: nat, end: nat)
    requires pos < end < |ts| && ts[pos] == Token(IDENTIFIER, v.id)
    requires v.init.None? ==> end == pos + 1 && (ts[end].kind == Semicolon || ts[end].kind == Comma)
    requires v.init.Some? ==> pos + 2 < end && ts[pos + 1] == AssignToken
                              && AssignmentExpression(d, ts, pos + 2) == Ok(Parsed(v.init.value, end))
    ensures VariableDeclarator(d, ts, pos) == Ok(Parsed(v, end))
  {
    IdentifierAt(ts, pos, v.id);
    match v.init {
      case None => BareDeclaratorParse(d, v.id, ts, pos);
      case Some(x) => InitDeclaratorParse(d, v.id, x, ts, pos, end);
    }
  }

  lemma BareDeclaratorParse(d: Dialect, id: string, ts: seq<Token>, pos: nat)
    requires pos + 1 < |ts| && ts[pos] == Token(IDENTIFIER, id)
    requires ts[pos + 1].kind == Semicolon || ts[pos + 1].kind == Comma
    requires Identifier(ts, pos) == Ok(Parsed(A.Identifier(id), pos + 1))
    ensures VariableDeclarator(d, ts, pos) == Ok(Parsed(A.VariableDeclarator(id, None), pos + 1))
  {
  }

  lemma InitDeclaratorParse(d: Dialect, id: string, x: A.Expr, ts: seq<Token>, pos: nat, end: nat)
    requires pos + 2 < end <= |ts| && ts[pos] == Token(IDENTIFIER, id) && ts[pos + 1] == AssignToken
    requires Identifier(ts, pos) == Ok(Parsed(A.Identifier(id), pos + 1))
    requires AssignmentExpression(d, ts, pos + 2) == Ok(Parsed(x, end))
    ensures VariableDeclarator(d, ts, pos) == Ok(Parsed(A.VariableDeclarator(id, Some(x)), end))
  {
  }

  /** A declarator followed by `,` or `;`. */
  lemma DeclaratorRoundTrip(d: Dialect, v: A.Declarator, ts: seq<Token>, pos: nat, end: nat)
    requires DeclaratorPrinted(d, v, ts, pos, end) && end < |ts|
    requires ts[end].kind == Semicolon || ts[end].kind == Comma
    ensures DeclaratorReads(d, ts, pos, v, end)
  {
    DeclaratorShape(d, v, ts, pos, end);
    if v.init.Some? {
      ExprAt(d, AssignmentRule, v.init.value, ts, pos + 2, end);
      ReadsAssignment(d, ts, pos + 2, v.init.value, end);
    }
    DeclaratorParse(d, v, ts, pos, end);
    DeclaratorReadsIntro(d, ts, pos, v, end);
  }

  lemma DeclaratorsStop(d: Dialect, list: seq<A.Declarator>, ts: seq<Token>, pos: nat)
    requires pos < |ts| && ts[pos] == Semi
    ensures DeclaratorsReads(d, list, ts, pos, list, pos)
  {
    DeclaratorsReadsIntro(d, list, ts, pos, list, pos);
  }

  lemma DeclaratorsParse(d: Dialect, list: seq<A.Declarator>, v: A.Declarator, vs: seq<A.Declarator>,
                         ts: seq<Token>, pos: nat, next: nat, end: nat)
    requires pos < next <= |ts| && ts[pos] == CommaToken
    requires VariableDeclarator(d, ts, pos + 1) == Ok(Parsed(v, next))
    requires VariableDeclarationTail(d, list + [v], ts, next) == Ok(Parsed(vs, end))
    ensures VariableDeclarationTail(d, list, ts, pos) == Ok(Parsed(vs, end))
  {
  }

  lemma DeclaratorsStep(d: Dialect, list: seq<A.Declarator>, v: A.Declarator, vs: seq<A.Declarator>,
                        ts: seq<Token>, pos: nat, next: nat, end: nat)
    requires pos < next <= |ts| && ts[pos] == CommaToken
    requires DeclaratorReads(d, ts, pos + 1, v, next) && DeclaratorsReads(d, list + [v], ts, next, vs, end)
    ensures DeclaratorsReads(d, list, ts, pos, vs, end)
  {
    DeclaratorReadsElim(d, ts, pos + 1, v, next);
    DeclaratorsReadsElim(d, list + [v], ts, next, vs, end);
    DeclaratorsParse(d, list, v, vs, ts, pos, next, end);
    DeclaratorsReadsIntro(d, list, ts, pos, vs, end);
  }

  lemma MoreDeclaratorsShape(d: Dialect, vs: seq<A.Declarator>, ts: seq<Token>, pos: nat, end: nat)
    returns (next: nat)
    requires |vs| > 0 && MoreDeclaratorsPrinted(d, vs, ts, pos, end)
    ensures pos + 1 < next <= end <= |ts| && ts[pos] == CommaToken
    ensures DeclaratorPrinted(d, vs[0], ts, pos + 1, next) && MoreDeclaratorsPrinted(d, vs[1..], ts, next, end)
  {
    var V, R := PrintDeclarator(d, vs[0]), PrintMoreDeclarators(d, vs[1..]);
    next := pos + 1 + |V|;
    Parts3(ts, pos, [CommaToken], V, R, pos + 1, next);
    AtOne(ts, pos, CommaToken);
    assert vs[0] in vs;
  }

  /** What follows a printed declarator: the `,` of the next one, or the `;`
      after the last. */
  lemma MoreDeclaratorsStart(d: Dialect, vs: seq<A.Declarator>, ts: seq<Token>, pos: nat, end: nat)
    requires MoreDeclaratorsPrinted(d, vs, ts, pos, end) && end < |ts| && ts[end] == Semi
    ensures pos < |ts| && (ts[pos].kind == Comma || ts[pos].kind == Semicolon)
  {
    if |vs| > 0 {
      var _ := MoreDeclaratorsShape(d, vs, ts, pos, end);
    }
  }

  /** `, v` for each `v` in `vs`, then `;`: the declarator loop reads them
      all after `list`. */
  lemma {:induction false} MoreDeclaratorsRoundTrip(d: Dialect, list: seq<A.Declarator>, vs: seq<A.Declarator>,
                                                    ts: seq<Token>, pos: nat, end: nat)
    requires MoreDeclaratorsPrinted(d, vs, ts, pos, end) && end < |ts| && ts[end] == Semi
    ensures DeclaratorsReads(d, list, ts, pos, list + vs, end)
    decreases vs
  {
    if |vs| == 0 {
      assert list + vs == list;
      DeclaratorsStop(d, list, ts, pos);
    } else {
      var next := MoreDeclaratorsShape(d, vs, ts, pos, end);
      MoreDeclaratorsStart(d, vs[1..], ts, next, end);
      DeclaratorRoundTrip(d, vs[0], ts, pos + 1, next);
      MoreDeclaratorsRoundTrip(d, list + [vs[0]], vs[1..], ts, next, end);
      assert list + [vs[0]] + vs[1..] == list + vs;
      DeclaratorsStep(d, list, vs[0], list + vs, ts, pos, next, end);
    }
  }

  lemma VariableShape(d: Dialect, kind: string, vs: seq<A.Declarator>, ts: seq<Token>, pos: nat, end: nat)
    returns (semi: nat)
    requires StmtPrinted(d, A.VariableDeclaration(kind, vs), ts, pos, end)
    ensures pos + 1 < semi < |ts| && end == semi + 1
    ensures ts[pos] == Token(DeclarationKeyword(d), kind) && ts[semi] == Semi
    ensures DeclaratorsPrinted(d, vs, ts, pos + 1, semi)
  {
    StmtPrintedElim(d, A.VariableDeclaration(kind, vs), ts, pos, end);
    var V := PrintDeclarators(d, vs);
    var K := Token(DeclarationKeyword(d), kind);
    semi := pos + 1 + |V|;
    Parts3(ts, pos, [K], V, [Semi], pos + 1, semi);
    AtOne(ts, pos, K);
    AtOne(ts, semi, Semi);
    DeclaratorsPrintedIntro(d, vs, ts, pos + 1, semi);
  }

  lemma DeclaratorsShape(d: Dialect, vs: seq<A.Declarator>, ts: seq<Token>, pos: nat, end: nat)
    returns (next: nat)
    requires DeclaratorsPrinted(d, vs, ts, pos, end)
    ensures |vs| > 0 && pos < next <= end
    ensures DeclaratorPrinted(d, vs[0], ts, pos, next) && MoreDeclaratorsPrinted(d, vs[1..], ts, next, end)
  {
    DeclaratorsPrintedElim(d, vs, ts, pos, end);
    var V, R := PrintDeclarator(d, vs[0]), PrintMoreDeclarators(d, vs[1..]);
    next := pos + |V|;
    Parts2(ts, pos, V, R, next);
    assert vs[0] in vs;
    assert forall v :: v in vs[1..] ==> v in vs;
  }

  lemma VariableParse(d: Dialect, kind: string, first: A.Declarator, vs: seq<A.Declarator>,
                      ts: seq<Token>, pos: nat, next: nat, semi: nat)
    requires pos < next <= semi < |ts| && ts[pos] == Token(DeclarationKeyword(d), kind) && ts[semi] == Semi
    requires VariableDeclarator(d, ts, pos + 1) == Ok(Parsed(first, next))
    requires VariableDeclarationTail(d, [first], ts, next) == Ok(Parsed(vs, semi))
    ensures VariableStatement(d, ts, pos) == Ok(Parsed(A.VariableDeclaration(kind, vs), semi + 1))
  {
    DeclarationListParse(d, first, vs, ts, pos + 1, next, semi);
    DeclarationParse(d, kind, vs, ts, pos, semi);
  }

  lemma DeclarationListParse(d: Dialect, first: A.Declarator, vs: seq<A.Declarator>,
                             ts: seq<Token>, pos: nat, next: nat, end: nat)
    requires pos < next <= end <= |ts|
    requires VariableDeclarator(d, ts, pos) == Ok(Parsed(first, next))
    requires VariableDeclarationTail(d, [first], ts, next) == Ok(Parsed(vs, end))
    ensures VariableDeclarationList(d, ts, pos) == Ok(Parsed(vs, end))
  {
  }

  lemma DeclarationParse(d: Dialect, kind: string, vs: seq<A.Declarator>, ts: seq<Token>, pos: nat, semi: nat)
    requires pos < semi < |ts| && ts[pos] == Token(DeclarationKeyword(d), kind) && ts[semi] == Semi
    requires VariableDeclarationList(d, ts, pos + 1) == Ok(Parsed(vs, semi))
    ensures VariableStatement(d, ts, pos) == Ok(Parsed(A.VariableDeclaration(kind, vs), semi + 1))
  {
  }

  lemma VariableStep(d: Dialect, kind: string, first: A.Declarator, vs: seq<A.Declarator>,
                     ts: seq<Token>, pos: nat, next: nat, semi: nat)
    requires pos < next <= semi < |ts| && ts[pos] == Token(DeclarationKeyword(d), kind) && ts[semi] == Semi
    requires DeclaratorReads(d, ts, pos + 1, first, next) && DeclaratorsReads(d, [first], ts, next, vs, semi)
    ensures VariableReads(d, ts, pos, A.VariableDeclaration(kind, vs), semi + 1)
  {
    DeclaratorReadsElim(d, ts, pos + 1, first, next);
    DeclaratorsReadsElim(d, [first], ts, next, vs, semi);
    VariableParse(d, kind, first, vs, ts, pos, next, semi);
    VariableReadsIntro(d, ts, pos, A.VariableDeclaration(kind, vs), semi + 1);
  }

  /** A variable statement is read back by VariableStatement. */
  lemma VariableRoundTrip(d: Dialect, kind: string, vs: seq<A.Declarator>, ts: seq<Token>, pos: nat, end: nat)
    requires StmtPrinted(d, A.VariableDeclaration(kind, vs), ts, pos, end)
    ensures pos < |ts| && ts[pos].kind == DeclarationKeyword(d)
    ensures VariableReads(d, ts, pos, A.VariableDeclaration(kind, vs), end)
  {
    var semi := VariableShape(d, kind, vs, ts, pos, end);
    var next := DeclaratorsShape(d, vs, ts, pos + 1, semi);
    MoreDeclaratorsStart(d, vs[1..], ts, next, semi);
    DeclaratorRoundTrip(d, vs[0], ts, pos + 1, next);
    MoreDeclaratorsRoundTrip(d, [vs[0]], vs[1..], ts, next, semi);
    assert [vs[0]] + vs[1..] == vs;
    VariableStep(d, kind, vs[0], vs, ts, pos, next, semi);
  }

  lemma VariableAsStatement(d: Dialect, s: A.Stmt, ts: seq<Token>, pos: nat, end: nat)
    requires pos < |ts| && ts[pos].kind == DeclarationKeyword(d) && VariableReads(d, ts, pos, s, end)
    ensures StatementReads(d, ts, pos, s, end)
  {
    VariableReadsElim(d, ts, pos, s, end);
    StatementIsVariable(d, ts, pos);
    StatementReadsIntro(d, ts, pos, s, end);
  }

  // ---------------------------------------------------------------------------
  // `return`

  lemma ReturnShape(d: Dialect, arg: Option<A.Expr>, ts: seq<Token>, pos: nat, end: nat)
    returns (semi: nat)
    requires StmtPrinted(d, A.ReturnStatement(arg), ts, pos, end)
    ensures pos < semi < |ts| && end == semi + 1 && ts[pos] == ReturnToken && ts[semi] == Semi
    ensures OptPrinted(d, arg, ts, pos + 1, semi) && (d == Src ==> arg.Some?)
  {
    StmtPrintedElim(d, A.ReturnStatement(arg), ts, pos, end);
    var X := PrintOptExpr(d, arg);
    At3(ts, pos, [ReturnToken], X, [Semi]);
    AtOne(ts, pos, ReturnToken);
    AtOne(ts, pos + 1 + |X|, Semi);
    semi := pos + 1 + |X|;
    if arg.Some? {
      PrintedRule(d, arg.value, ts, pos + 1, semi);
    }
  }

  lemma ReturnParse(d: Dialect, arg: Option<A.Expr>, ts: seq<Token>, pos: nat, semi: nat)
    requires pos < semi < |ts| && ts[pos] == ReturnToken && ts[semi] == Semi
    requires d == Src ==> ts[pos + 1].kind != Semicolon
    requires OptionalExpression(d, ts, pos + 1, ts[pos + 1].kind == Semicolon) == Ok(Parsed(arg, semi))
    ensures ReturnStatement(d, ts, pos) == Ok(Parsed(A.ReturnStatement(arg), semi + 1))
  {
  }

  lemma ReturnStep(d: Dialect, arg: Option<A.Expr>, ts: seq<Token>, pos: nat, semi: nat)
    requires pos < semi < |ts| && ts[pos] == ReturnToken && ts[semi] == Semi
    requires d == Src ==> ts[pos + 1].kind != Semicolon
    requires OptReads(d, arg, ts, pos + 1, semi, Semicolon)
    ensures StatementReads(d, ts, pos, A.ReturnStatement(arg), semi + 1)
  {
    OptionalParse(d, arg, ts, pos + 1, semi, Semicolon);
    ReturnParse(d, arg, ts, pos, semi);
    StatementIsReturn(d, ts, pos);
    StatementReadsIntro(d, ts, pos, A.ReturnStatement(arg), semi + 1);
  }

  lemma ReturnRoundTrip(d: Dialect, arg: Option<A.Expr>, ts: seq<Token>, pos: nat, end: nat)
    requires StmtPrinted(d, A.ReturnStatement(arg), ts, pos, end)
    ensures StatementReads(d, ts, pos, A.ReturnStatement(arg), end)
  {
    var semi := ReturnShape(d, arg, ts, pos, end);
    OptionalRoundTrip(d, arg, ts, pos + 1, semi, Semicolon);
    ReturnStep(d, arg, ts, pos, semi);
  }

  // ---------------------------------------------------------------------------
  // Blocks and statement lists

  lemma BlockShape(d: Dialect, body: seq<A.Stmt>, ts: seq<Token>, pos: nat, end: nat)
    returns (close: nat)
    requires StmtPrinted(d, A.BlockStatement(body), ts, pos, end)
    ensures pos < close < |ts| && end == close + 1 && ts[pos] == LBrace && ts[close] == RBrace
    ensures StmtsPrinted(d, body, ts, pos + 1, close)
  {
    StmtPrintedElim(d, A.BlockStatement(body), ts, pos, end);
    var B := PrintStmts(d, body);
    At3(ts, pos, [LBrace], B, [RBrace]);
    AtOne(ts, pos, LBrace);
    AtOne(ts, pos + 1 + |B|, RBrace);
    close := pos + 1 + |B|;
    StmtsPrintedIntro(d, body, ts, pos + 1, close);
  }

  lemma StmtsShape(d: Dialect, ss: seq<A.Stmt>, ts: seq<Token>, pos: nat, end: nat)
    returns (next: nat)
    requires |ss| > 0 && StmtsPrinted(d, ss, ts, pos, end)
    ensures pos < next <= end
    ensures StmtPrinted(d, ss[0], ts, pos, next) && StmtsPrinted(d, ss[1..], ts, next, end)
  {
    StmtsPrintedElim(d, ss, ts, pos, end);
    var S, R := PrintStmt(d, ss[0]), PrintStmts(d, ss[1..]);
    At2(ts, pos, S, R);
    assert ss[0] in ss;
    assert forall x :: x in ss[1..] ==> x in ss;
    next := pos + |S|;
    StmtPrintedIntro(d, ss[0], ts, pos, next);
    StmtsPrintedIntro(d, ss[1..], ts, next, end);
  }

  /** The token after a statement of a list that ends at `end`: the start of
      the next statement, or what follows the list. */
  lemma StmtsStart(d: Dialect, ss: seq<A.Stmt>, ts: seq<Token>, pos: nat, end: nat)
    requires StmtsPrinted(d, ss, ts, pos, end)
    ensures pos <= end
    ensures |ss| > 0 ==> pos < |ts| && ts[pos].kind != KwElse && ts[pos].kind != CloseBrace
    ensures |ss| == 0 ==> pos == end
  {
    if |ss| > 0 {
      var next := StmtsShape(d, ss, ts, pos, end);
      StmtStart(d, ss[0], ts, pos, next);
    } else {
      StmtsPrintedElim(d, ss, ts, pos, end);
    }
  }

  lemma ListStops(d: Dialect, stop: Option<Kind>, list: seq<A.Stmt>, ts: seq<Token>, pos: nat)
    requires pos <= |ts| && (pos == |ts| || (stop.Some? && ts[pos].kind == stop.value))
    ensures ListReads(d, stop, list, ts, pos, list, pos)
  {
    ListReadsIntro(d, stop, list, ts, pos, list, pos);
  }

  lemma ListParse(d: Dialect, stop: Option<Kind>, list: seq<A.Stmt>, x: A.Stmt, ss: seq<A.Stmt>,
                  ts: seq<Token>, pos: nat, next: nat, end: nat)
    requires pos < |ts| && !(stop.Some? && ts[pos].kind == stop.value) && next <= |ts|
    requires Statement(d, ts, pos) == Ok(Parsed(x, next))
    requires StatementListTail(d, stop, list + [x], ts, next) == Ok(Parsed(ss, end))
    ensures StatementListTail(d, stop, list, ts, pos) == Ok(Parsed(ss, end))
  {
  }

  lemma ListStep(d: Dialect, stop: Option<Kind>, list: seq<A.Stmt>, x: A.Stmt, ss: seq<A.Stmt>,
                 ts: seq<Token>, pos: nat, next: nat, end: nat)
    requires pos < |ts| && !(stop.Some? && ts[pos].kind == stop.value)
    requires StatementReads(d, ts, pos, x, next) && ListReads(d, stop, list + [x], ts, next, ss, end)
    ensures ListReads(d, stop, list, ts, pos, ss, end)
  {
    StatementReadsElim(d, ts, pos, x, next);
    ListReadsElim(d, stop, list + [x], ts, next, ss, end);
    ListParse(d, stop, list, x, ss, ts, pos, next, end);
    ListReadsIntro(d, stop, list, ts, pos, ss, end);
  }

  /** Statements followed by the end of the input or by `}`: the statement
      loop reads them all after `list`. */
  lemma {:induction false} ListRoundTrip(d: Dialect, stop: Option<Kind>, list: seq<A.Stmt>, ss: seq<A.Stmt>,
                                         ts: seq<Token>, pos: nat, end: nat)
    requires stop == None || stop == Some(CloseBrace)
    requires StmtsPrinted(d, ss, ts, pos, end)
    requires end == |ts| || (stop.Some? && end < |ts| && ts[end].kind == stop.value)
    ensures ListReads(d, stop, list, ts, pos, list + ss, end)
    decreases ss, 0
  {
    if |ss| == 0 {
      StmtsStart(d, ss, ts, pos, end);
      assert list + ss == list;
      ListStops(d, stop, list, ts, pos);
    } else {
      var next := StmtsShape(d, ss, ts, pos, end);
      StmtStart(d, ss[0], ts, pos, next);
      StmtsStart(d, ss[1..], ts, next, end);
      StatementRoundTrip(d, ss[0], ts, pos, next);
      ListRoundTrip(d, stop, list + [ss[0]], ss[1..], ts, next, end);
      assert list + [ss[0]] + ss[1..] == list + ss;
      ListStep(d, stop, list, ss[0], list + ss, ts, pos, next, end);
    }
  }

  lemma BlockParse(d: Dialect, body: seq<A.Stmt>, ts: seq<Token>, pos: nat, close: nat)
    requires pos < close < |ts| && ts[pos] == LBrace && ts[close] == RBrace
    requires body == [] ==> close == pos + 1
    requires body != [] ==> ts[pos + 1] != RBrace
    requires body != [] ==> StatementListTail(d, Some(CloseBrace), [], ts, pos + 1) == Ok(Parsed(body, close))
    ensures BlockStatement(d, ts, pos) == Ok(Parsed(A.BlockStatement(body), close + 1))
  {
    if body != [] {
      ListHead(d, Some(CloseBrace), ts, pos + 1);
    }
  }

  /** A list that does not stop at once reads its first statement as the loop
      does. */
  lemma ListHead(d: Dialect, stop: Option<Kind>, ts: seq<Token>, pos: nat)
    requires pos < |ts| && !(stop.Some? && ts[pos].kind == stop.value)
    ensures StatementList(d, ts, pos, stop) == StatementListTail(d, stop, [], ts, pos)
  {
    match Statement(d, ts, pos)
    case Ok(Parsed(x, next)) =>
      assert [] + [x] == [x];
    case Err(_) =>
  }

  lemma BlockStep(d: Dialect, body: seq<A.Stmt>, ts: seq<Token>, pos: nat, close: nat)
    requires pos < close < |ts| && ts[pos] == LBrace && ts[close] == RBrace
    requires body == [] ==> close == pos + 1
    requires body != [] ==> ts[pos + 1] != RBrace && ListReads(d, Some(CloseBrace), [], ts, pos + 1, body, close)
    ensures BlockReads(d, ts, pos, A.BlockStatement(body), close + 1)
  {
    if body != [] {
      ListReadsElim(d, Some(CloseBrace), [], ts, pos + 1, body, close);
    }
    BlockParse(d, body, ts, pos, close);
    BlockReadsIntro(d, ts, pos, A.BlockStatement(body), close + 1);
  }

  /** A block is read back by BlockStatement. */
  lemma {:induction false} BlockRoundTrip(d: Dialect, body: seq<A.Stmt>, ts: seq<Token>, pos: nat, end: nat)
    requires StmtPrinted(d, A.BlockStatement(body), ts, pos, end)
    ensures BlockReads(d, ts, pos, A.BlockStatement(body), end)
    decreases A.BlockStatement(body), 0
  {
    var close := BlockShape(d, body, ts, pos, end);
    StmtsStart(d, body, ts, pos + 1, close);
    if body != [] {
      ListRoundTrip(d, Some(CloseBrace), [], body, ts, pos + 1, close);
      assert [] + body == body;
    }
    BlockStep(d, body, ts, pos, close);
  }

  lemma BlockAsStatement(d: Dialect, s: A.Stmt, ts: seq<Token>, pos: nat, end: nat)
    requires pos < |ts| && ts[pos] == LBrace && BlockReads(d, ts, pos, s, end)
    ensures StatementReads(d, ts, pos, s, end)
  {
    BlockReadsElim(d, ts, pos, s, end);
    StatementIsBlock(d, ts, pos);
    StatementReadsIntro(d, ts, pos, s, end);
  }

  // ---------------------------------------------------------------------------
  // `if` and `while`

  /** The `else` branch `alt`, if any, is well formed and occupies
      `ts[pos..end]`. */
  predicate ElsePrinted(d: Dialect, alt: Option<A.Stmt>, ts: seq<Token>, pos: nat, end: nat, k: Delay := Later(Later(Now)))
  {
    match k
    case Now => (alt.Some? ==> A.WfStmt(d, alt.value)) && end == pos + |PrintElse(d, alt)| && At(ts, pos, PrintElse(d, alt))
    case Later(j) => ElsePrinted(d, alt, ts, pos, end, j)
  }

  lemma ElsePrintedRule(d: Dialect, alt: Option<A.Stmt>, ts: seq<Token>, pos: nat, end: nat)
    ensures ElsePrinted(d, alt, ts, pos, end)
        <==> (alt.Some? ==> A.WfStmt(d, alt.value)) && end == pos + |PrintElse(d, alt)| && At(ts, pos, PrintElse(d, alt))
  {
    assert ElsePrinted(d, alt, ts, pos, end, Later(Now)) <==> ElsePrinted(d, alt, ts, pos, end, Now);
  }

  lemma ElsePrintedIntro(d: Dialect, alt: Option<A.Stmt>, ts: seq<Token>, pos: nat, end: nat)
    requires (alt.Some? ==> A.WfStmt(d, alt.value)) && end == pos + |PrintElse(d, alt)| && At(ts, pos, PrintElse(d, alt))
    ensures ElsePrinted(d, alt, ts, pos, end)
  {
    ElsePrintedRule(d, alt, ts, pos, end);
  }

  lemma ElsePrintedElim(d: Dialect, alt: Option<A.Stmt>, ts: seq<Token>, pos: nat, end: nat)
    requires ElsePrinted(d, alt, ts, pos, end)
    ensures (alt.Some? ==> A.WfStmt(d, alt.value)) && end == pos + |PrintElse(d, alt)| && At(ts, pos, PrintElse(d, alt))
  {
    ElsePrintedRule(d, alt, ts, pos, end);
  }

  /** IfStatement reads `s` from `ts[pos..end]`. */
  predicate IfReads(d: Dialect, ts: seq<Token>, pos: nat, s: A.Stmt, end: nat, k: Delay := Later(Later(Now)))
  {
    match k
    case Now => pos <= |ts| && IfStatement(d, ts, pos) == Ok(Parsed(s, end))
    case Later(j) => IfReads(d, ts, pos, s, end, j)
  }

  lemma IfReadsRule(d: Dialect, ts: seq<Token>, pos: nat, s: A.Stmt, end: nat)
    ensures IfReads(d, ts, pos, s, end) <==> pos <= |ts| && IfStatement(d, ts, pos) == Ok(Parsed(s, end))
  {
    assert IfReads(d, ts, pos, s, end, Later(Now)) <==> IfReads(d, ts, pos, s, end, Now);
  }

  lemma IfReadsIntro(d: Dialect, ts: seq<Token>, pos: nat, s: A.Stmt, end: nat)
    requires pos <= |ts| && IfStatement(d, ts, pos) == Ok(Parsed(s, end))
    ensures IfReads(d, ts, pos, s, end)
  {
    IfReadsRule(d, ts, pos, s, end);
  }

  lemma IfReadsElim(d: Dialect, ts: seq<Token>, pos: nat, s: A.Stmt, end: nat)
    requires IfReads(d, ts, pos, s, end)
    ensures pos <= |ts| && IfStatement(d, ts, pos) == Ok(Parsed(s, end))
  {
    IfReadsRule(d, ts, pos, s, end);
  }

  /** WhileStatement reads `s` from `ts[pos..end]`. */
  predicate WhileReads(d: Dialect, ts: seq<Token>, pos: nat, s: A.Stmt, end: nat, k: Delay := Later(Later(Now)))
  {
    match k
    case Now => pos <= |ts| && WhileStatement(d, ts, pos) == Ok(Parsed(s, end))
    case Later(j) => WhileReads(d, ts, pos, s, end, j)
  }

  lemma WhileReadsRule(d: Dialect, ts: seq<Token>, pos: nat, s: A.Stmt, end: nat)
    ensures WhileReads(d, ts, pos, s, end) <==> pos <= |ts| && WhileStatement(d, ts, pos) == Ok(Parsed(s, end))
  {
    assert WhileReads(d, ts, pos, s, end, Later(Now)) <==> WhileReads(d, ts, pos, s, end, Now);
  }

  lemma WhileReadsIntro(d: Dialect, ts: seq<Token>, pos: nat, s: A.Stmt, end: nat)
    requires pos <= |ts| && WhileStatement(d, ts, pos) == Ok(Parsed(s, end))
    ensures WhileReads(d, ts, pos, s, end)
  {
    WhileReadsRule(d, ts, pos, s, end);
  }

  lemma WhileReadsElim(d: Dialect, ts: seq<Token>, pos: nat, s: A.Stmt, end: nat)
    requires WhileReads(d, ts, pos, s, end)
    ensures pos <= |ts| && WhileStatement(d, ts, pos) == Ok(Parsed(s, end))
  {
    WhileReadsRule(d, ts, pos, s, end);
  }

  /** `( test )` is well formed and occupies `ts[pos..end]`. */
  predicate ConditionPrinted(d: Dialect, test: A.Expr, ts: seq<Token>, pos: nat, end: nat, k: Delay := Later(Later(Now)))
  {
    match k
    case Now => A.WfExpr(d, test) && end == pos + |PrintCondition(d, test)| && At(ts, pos, PrintCondition(d, test))
    case Later(j) => ConditionPrinted(d, test, ts, pos, end, j)
  }

  lemma ConditionPrintedRule(d: Dialect, test: A.Expr, ts: seq<Token>, pos: nat, end: nat)
    ensures ConditionPrinted(d, test, ts, pos, end)
        <==> A.WfExpr(d, test) && end == pos + |PrintCondition(d, test)| && At(ts, pos, PrintCondition(d, test))
  {
    assert ConditionPrinted(d, test, ts, pos, end, Later(Now)) <==> ConditionPrinted(d, test, ts, pos, end, Now);
  }

  lemma ConditionPrintedIntro(d: Dialect, test: A.Expr, ts: seq<Token>, pos: nat, end: nat)
    requires A.WfExpr(d, test) && end == pos + |PrintCondition(d, test)| && At(ts, pos, PrintCondition(d, test))
    ensures ConditionPrinted(d, test, ts, pos, end)
  {
    ConditionPrintedRule(d, test, ts, pos, end);
  }

  lemma ConditionPrintedElim(d: Dialect, test: A.Expr, ts: seq<Token>, pos: nat, end: nat)
    requires ConditionPrinted(d, test, ts, pos, end)
    ensures A.WfExpr(d, test) && end == pos + |PrintCondition(d, test)| && At(ts, pos, PrintCondition(d, test))
  {
    ConditionPrintedRule(d, test, ts, pos, end);
  }

  /** ParenCondition reads `test` from `ts[pos..end]`. */
  predicate ConditionReads(d: Dialect, ts: seq<Token>, pos: nat, test: A.Expr, end: nat, k: Delay := Later(Later(Now)))
  {
    match k
    case Now => pos <= |ts| && ParenCondition(d, ts, pos) == Ok(Parsed(test, end))
    case Later(j) => ConditionReads(d, ts, pos, test, end, j)
  }

  lemma ConditionReadsRule(d: Dialect, ts: seq<Token>, pos: nat, test: A.Expr, end: nat)
    ensures ConditionReads(d, ts, pos, test, end) <==> pos <= |ts| && ParenCondition(d, ts, pos) == Ok(Parsed(test, end))
  {
    assert ConditionReads(d, ts, pos, test, end, Later(Now)) <==> ConditionReads(d, ts, pos, test, end, Now);
  }

  lemma ConditionReadsIntro(d: Dialect, ts: seq<Token>, pos: nat, test: A.Expr, end: nat)
    requires pos <= |ts| && ParenCondition(d, ts, pos) == Ok(Parsed(test, end))
    ensures ConditionReads(d, ts, pos, test, end)
  {
    ConditionReadsRule(d, ts, pos, test, end);
  }

  lemma ConditionReadsElim(d: Dialect, ts: seq<Token>, pos: nat, test: A.Expr, end: nat)
    requires ConditionReads(d, ts, pos, test, end)
    ensures pos <= |ts| && ParenCondition(d, ts, pos) == Ok(Parsed(test, end))
  {
    ConditionReadsRule(d, ts, pos, test, end);
  }

  /** ElseClause reads `alt` from `ts[pos..end]`. */
  predicate ElseReads(d: Dialect, ts: seq<Token>, pos: nat, alt: Option<A.Stmt>, end: nat, k: Delay := Later(Later(Now)))
  {
    match k
    case Now => pos <= |ts| && ElseClause(d, ts, pos) == Ok(Parsed(alt, end))
    case Later(j) => ElseReads(d, ts, pos, alt, end, j)
  }

  lemma ElseReadsRule(d: Dialect, ts: seq<Token>, pos: nat, alt: Option<A.Stmt>, end: nat)
    ensures ElseReads(d, ts, pos, alt, end) <==> pos <= |ts| && ElseClause(d, ts, pos) == Ok(Parsed(alt, end))
  {
    assert ElseReads(d, ts, pos, alt, end, Later(Now)) <==> ElseReads(d, ts, pos, alt, end, Now);
  }

  lemma ElseReadsIntro(d: Dialect, ts: seq<Token>, pos: nat, alt: Option<A.Stmt>, end: nat)
    requires pos <= |ts| && ElseClause(d, ts, pos) == Ok(Parsed(alt, end))
    ensures ElseReads(d, ts, pos, alt, end)
  {
    ElseReadsRule(d, ts, pos, alt, end);
  }

  lemma ElseReadsElim(d: Dialect, ts: seq<Token>, pos: nat, alt: Option<A.Stmt>, end: nat)
    requires ElseReads(d, ts, pos, alt, end)
    ensures pos <= |ts| && ElseClause(d, ts, pos) == Ok(Parsed(alt, end))
  {
    ElseReadsRule(d, ts, pos, alt, end);
  }

  lemma ConditionShape(d: Dialect, test: A.Expr, ts: seq<Token>, pos: nat, end: nat) returns (close: nat)
    requires ConditionPrinted(d, test, ts, pos, end)
    ensures pos < close && close + 1 == end <= |ts|
    ensures ts[pos] == LParen && ts[close] == RParen && Printed(d, test, ts, pos + 1, close)
  {
    ConditionPrintedElim(d, test, ts, pos, end);
    var E := PrintExpr(d, test);
    close := pos + 1 + |E|;
    Parts3(ts, pos, [LParen], E, [RParen], pos + 1, close);
    AtOne(ts, pos, LParen);
    AtOne(ts, close, RParen);
    PrintedRule(d, test, ts, pos + 1, close);
  }

  lemma ConditionParse(d: Dialect, test: A.Expr, ts: seq<Token>, pos: nat, close: nat)
    requires pos < close < |ts| && ts[pos] == LParen && ts[close] == RParen
    requires AssignmentExpression(d, ts, pos + 1) == Ok(Parsed(test, close))
    ensures ParenCondition(d, ts, pos) == Ok(Parsed(test, close + 1))
  {
  }

  /** `( test )` is read back by ParenCondition. */
  lemma ConditionRoundTrip(d: Dialect, test: A.Expr, ts: seq<Token>, pos: nat, end: nat)
    requires ConditionPrinted(d, test, ts, pos, end)
    ensures ConditionReads(d, ts, pos, test, end)
  {
    var close := ConditionShape(d, test, ts, pos, end);
    ExprAt(d, AssignmentRule, test, ts, pos + 1, close);
    ReadsAssignment(d, ts, pos + 1, test, close);
    ConditionParse(d, test, ts, pos, close);
    ConditionReadsIntro(d, ts, pos, test, end);
  }

  lemma ElseShape(d: Dialect, alt: Option<A.Stmt>, ts: seq<Token>, pos: nat, end: nat)
    requires ElsePrinted(d, alt, ts, pos, end)
    ensures alt.None? ==> end == pos <= |ts|
    ensures alt.Some? ==> pos < end && pos < |ts| && ts[pos] == ElseToken && StmtPrinted(d, alt.value, ts, pos + 1, end)
  {
    ElsePrintedElim(d, alt, ts, pos, end);
    match alt
    case None =>
      AtRule(ts, pos, PrintElse(d, alt));
    case Some(a) =>
      Parts2(ts, pos, [ElseToken], PrintStmt(d, a), pos + 1);
      AtOne(ts, pos, ElseToken);
      StmtPrintedIntro(d, a, ts, pos + 1, end);
  }

  lemma ElseParse(d: Dialect, alt: Option<A.Stmt>, ts: seq<Token>, pos: nat, end: nat)
    requires pos <= end <= |ts|
    requires alt.None? ==> end == pos && !LookaheadIs(ts, pos, KwElse)
    requires alt.Some? ==> pos < |ts| && ts[pos] == ElseToken && Statement(d, ts, pos + 1) == Ok(Parsed(alt.value, end))
    ensures ElseClause(d, ts, pos) == Ok(Parsed(alt, end))
  {
  }

  /** The `else` branch, if any, is read back by ElseClause, provided an
      `else` does not follow where the `if` it would close is still open. */
  lemma {:induction false} ElseRoundTrip(d: Dialect, alt: Option<A.Stmt>, ts: seq<Token>, pos: nat, end: nat)
    requires ElsePrinted(d, alt, ts, pos, end)
    requires alt.None? || A.OpenIf(alt.value) ==> !LookaheadIs(ts, end, KwElse)
    ensures ElseReads(d, ts, pos, alt, end)
    decreases alt, 0
  {
    ElseShape(d, alt, ts, pos, end);
    match alt {
      case None =>
      case Some(a) =>
        StatementRoundTrip(d, a, ts, pos + 1, end);
        StatementReadsElim(d, ts, pos + 1, a, end);
    }
    ElseParse(d, alt, ts, pos, end);
    ElseReadsIntro(d, ts, pos, alt, end);
  }

  lemma IfShape(d: Dialect, test: A.Expr, c: A.Stmt, alt: Option<A.Stmt>, ts: seq<Token>, pos: nat, end: nat)
    returns (p1: nat, p2: nat)
    requires StmtPrinted(d, A.IfStatement(test, c, alt), ts, pos, end)
    ensures pos < p1 < p2 <= end <= |ts| && ts[pos] == IfToken
    ensures ConditionPrinted(d, test, ts, pos + 1, p1) && StmtPrinted(d, c, ts, p1, p2)
    ensures ElsePrinted(d, alt, ts, p2, end) && (alt.Some? ==> !A.OpenIf(c))
  {
    StmtPrintedElim(d, A.IfStatement(test, c, alt), ts, pos, end);
    var T, C, R := PrintCondition(d, test), PrintStmt(d, c), PrintElse(d, alt);
    p1, p2 := pos + 1 + |T|, pos + 1 + |T| + |C|;
    Parts4(ts, pos, [IfToken], T, C, R, pos + 1, p1, p2);
    AtOne(ts, pos, IfToken);
    ConditionPrintedIntro(d, test, ts, pos + 1, p1);
    StmtPrintedIntro(d, c, ts, p1, p2);
    ElsePrintedIntro(d, alt, ts, p2, end);
  }

  lemma IfParse(d: Dialect, test: A.Expr, c: A.Stmt, alt: Option<A.Stmt>, ts: seq<Token>, pos: nat, p1: nat, p2: nat, end: nat)
    requires pos < p1 <= p2 <= end <= |ts| && ts[pos] == IfToken
    requires ParenCondition(d, ts, pos + 1) == Ok(Parsed(test, p1))
    requires Statement(d, ts, p1) == Ok(Parsed(c, p2))
    requires ElseClause(d, ts, p2) == Ok(Parsed(alt, end))
    ensures IfStatement(d, ts, pos) == Ok(Parsed(A.IfStatement(test, c, alt), end))
  {
  }

  lemma IfStep(d: Dialect, test: A.Expr, c: A.Stmt, alt: Option<A.Stmt>, ts: seq<Token>, pos: nat, p1: nat, p2: nat, end: nat)
    requires pos < p1 <= p2 <= end <= |ts| && ts[pos] == IfToken
    requires ConditionReads(d, ts, pos + 1, test, p1) && StatementReads(d, ts, p1, c, p2)
    requires ElseReads(d, ts, p2, alt, end)
    ensures IfReads(d, ts, pos, A.IfStatement(test, c, alt), end)
  {
    ConditionReadsElim(d, ts, pos + 1, test, p1);
    StatementReadsElim(d, ts, p1, c, p2);
    ElseReadsElim(d, ts, p2, alt, end);
    IfParse(d, test, c, alt, ts, pos, p1, p2, end);
    IfReadsIntro(d, ts, pos, A.IfStatement(test, c, alt), end);
  }

  lemma IfAsStatement(d: Dialect, s: A.Stmt, ts: seq<Token>, pos: nat, end: nat)
    requires pos < |ts| && ts[pos] == IfToken && IfReads(d, ts, pos, s, end)
    ensures StatementReads(d, ts, pos, s, end)
  {
    IfReadsElim(d, ts, pos, s, end);
    StatementIsIf(d, ts, pos);
    StatementReadsIntro(d, ts, pos, s, end);
  }

  lemma {:induction false} IfRoundTrip(d: Dialect, test: A.Expr, c: A.Stmt, alt: Option<A.Stmt>, ts: seq<Token>, pos: nat, end: nat)
    requires StmtPrinted(d, A.IfStatement(test, c, alt), ts, pos, end)
    requires A.OpenIf(A.IfStatement(test, c, alt)) ==> !LookaheadIs(ts, end, KwElse)
    ensures StatementReads(d, ts, pos, A.IfStatement(test, c, alt), end)
    decreases A.IfStatement(test, c, alt), 0
  {
    var p1, p2 := IfShape(d, test, c, alt, ts, pos, end);
    ElseShape(d, alt, ts, p2, end);
    ConditionRoundTrip(d, test, ts, pos + 1, p1);
    StatementRoundTrip(d, c, ts, p1, p2);
    ElseRoundTrip(d, alt, ts, p2, end);
    IfStep(d, test, c, alt, ts, pos, p1, p2, end);
    IfAsStatement(d, A.IfStatement(test, c, alt), ts, pos, end);
  }

  lemma WhileShape(d: Dialect, test: A.Expr, body: A.Stmt, ts: seq<Token>, pos: nat, end: nat)
    returns (p1: nat)
    requires StmtPrinted(d, A.WhileStatement(test, body), ts, pos, end)
    ensures pos < p1 < end <= |ts| && ts[pos] == WhileToken
    ensures ConditionPrinted(d, test, ts, pos + 1, p1) && StmtPrinted(d, body, ts, p1, end)
  {
    StmtPrintedElim(d, A.WhileStatement(test, body), ts, pos, end);
    var T, B := PrintCondition(d, test), PrintStmt(d, body);
    p1 := pos + 1 + |T|;
    Parts3(ts, pos, [WhileToken], T, B, pos + 1, p1);
    AtOne(ts, pos, WhileToken);
    ConditionPrintedIntro(d, test, ts, pos + 1, p1);
    StmtPrintedIntro(d, body, ts, p1, end);
  }

  lemma WhileParse(d: Dialect, test: A.Expr, body: A.Stmt, ts: seq<Token>, pos: nat, p1: nat, end: nat)
    requires pos < p1 < end <= |ts| && ts[pos] == WhileToken
    requires ParenCondition(d, ts, pos + 1) == Ok(Parsed(test, p1))
    requires Statement(d, ts, p1) == Ok(Parsed(body, end))
    ensures WhileStatement(d, ts, pos) == Ok(Parsed(A.WhileStatement(test, body), end))
  {
  }

  lemma WhileStep(d: Dialect, test: A.Expr, body: A.Stmt, ts: seq<Token>, pos: nat, p1: nat, end: nat)
    requires pos < p1 < end <= |ts| && ts[pos] == WhileToken
    requires ConditionReads(d, ts, pos + 1, test, p1) && StatementReads(d, ts, p1, body, end)
    ensures WhileReads(d, ts, pos, A.WhileStatement(test, body), end)
  {
    ConditionReadsElim(d, ts, pos + 1, test, p1);
    StatementReadsElim(d, ts, p1, body, end);
    WhileParse(d, test, body, ts, pos, p1, end);
    WhileReadsIntro(d, ts, pos, A.WhileStatement(test, body), end);
  }

  lemma WhileAsStatement(d: Dialect, s: A.Stmt, ts: seq<Token>, pos: nat, end: nat)
    requires pos < |ts| && ts[pos] == WhileToken && WhileReads(d, ts, pos, s, end)
    ensures StatementReads(d, ts, pos, s, end)
  {
    WhileReadsElim(d, ts, pos, s, end);
    StatementIsWhile(d, ts, pos);
    StatementReadsIntro(d, ts, pos, s, end);
  }

  lemma {:induction false} WhileRoundTrip(d: Dialect, test: A.Expr, body: A.Stmt, ts: seq<Token>, pos: nat, end: nat)
    requires StmtPrinted(d, A.WhileStatement(test, body), ts, pos, end)
    requires A.OpenIf(body) ==> !LookaheadIs(ts, end, KwElse)
    ensures StatementReads(d, ts, pos, A.WhileStatement(test, body), end)
    decreases A.WhileStatement(test, body), 0
  {
    var p1 := WhileShape(d, test, body, ts, pos, end);
    ConditionRoundTrip(d, test, ts, pos + 1, p1);
    StatementRoundTrip(d, body, ts, p1, end);
    WhileStep(d, test, body, ts, pos, p1, end);
    WhileAsStatement(d, A.WhileStatement(test, body), ts, pos, end);
  }

  // ---------------------------------------------------------------------------
  // `for` (Web)

  /** The clauses of a `for` are well formed and occupy `ts[pos..end]`, the
      closing `)` included. */
  predicate ClausesPrinted(d: Dialect, init: Option<A.Stmt>, test: Option<A.Expr>, update: Option<A.Expr>,
                           ts: seq<Token>, pos: nat, end: nat, k: Delay := Later(Later(Now)))
  {
    match k
    case Now =>
      && A.WfForInit(d, init) && A.WfOptExpr(d, test) && A.WfOptExpr(d, update)
      && end == pos + |PrintForClauses(d, init, test, update)| && At(ts, pos, PrintForClauses(d, init, test, update))
    case Later(j) => ClausesPrinted(d, init, test, update, ts, pos, end, j)
  }

  lemma ClausesPrintedRule(d: Dialect, init: Option<A.Stmt>, test: Option<A.Expr>, update: Option<A.Expr>,
                           ts: seq<Token>, pos: nat, end: nat)
    ensures ClausesPrinted(d, init, test, update, ts, pos, end)
        <==> && A.WfForInit(d, init) && A.WfOptExpr(d, test) && A.WfOptExpr(d, update)
             && end == pos + |PrintForClauses(d, init, test, update)| && At(ts, pos, PrintForClauses(d, init, test, update))
  {
    assert ClausesPrinted(d, init, test, update, ts, pos, end, Later(Now))
       <==> ClausesPrinted(d, init, test, update, ts, pos, end, Now);
  }

  lemma ClausesPrintedIntro(d: Dialect, init: Option<A.Stmt>, test: Option<A.Expr>, update: Option<A.Expr>,
                           ts: seq<Token>, pos: nat, end: nat)
    requires && A.WfForInit(d, init) && A.WfOptExpr(d, test) && A.WfOptExpr(d, update) && end == pos + |PrintForClauses(d, init, test, update)| && At(ts, pos, PrintForClauses(d, init, test, update))
    ensures ClausesPrinted(d, init, test, update, ts, pos, end)
  {
    ClausesPrintedRule(d, init, test, update, ts, pos, end);
  }

  lemma ClausesPrintedElim(d: Dialect, init: Option<A.Stmt>, test: Option<A.Expr>, update: Option<A.Expr>,
                           ts: seq<Token>, pos: nat, end: nat)
    requires ClausesPrinted(d, init, test, update, ts, pos, end)
    ensures && A.WfForInit(d, init) && A.WfOptExpr(d, test) && A.WfOptExpr(d, update) && end == pos + |PrintForClauses(d, init, test, update)| && At(ts, pos, PrintForClauses(d, init, test, update))
  {
    ClausesPrintedRule(d, init, test, update, ts, pos, end);
  }

  /** ForClauses reads the clauses from `ts[pos..end]`. */
  predicate ClausesReads(ts: seq<Token>, pos: nat, init: Option<A.Stmt>, test: Option<A.Expr>, update: Option<A.Expr>,
                         end: nat, k: Delay := Later(Later(Now)))
  {
    match k
    case Now => pos <= |ts| && ForClauses(ts, pos) == Ok(Parsed((init, test, update), end))
    case Later(j) => ClausesReads(ts, pos, init, test, update, end, j)
  }

  lemma ClausesReadsRule(ts: seq<Token>, pos: nat, init: Option<A.Stmt>, test: Option<A.Expr>, update: Option<A.Expr>, end: nat)
    ensures ClausesReads(ts, pos, init, test, update, end)
        <==> pos <= |ts| && ForClauses(ts, pos) == Ok(Parsed((init, test, update), end))
  {
    assert ClausesReads(ts, pos, init, test, update, end, Later(Now)) <==> ClausesReads(ts, pos, init, test, update, end, Now);
  }

  lemma ClausesReadsIntro(ts: seq<Token>, pos: nat, init: Option<A.Stmt>, test: Option<A.Expr>, update: Option<A.Expr>, end: nat)
    requires pos <= |ts| && ForClauses(ts, pos) == Ok(Parsed((init, test, update), end))
    ensures ClausesReads(ts, pos, init, test, update, end)
  {
    ClausesReadsRule(ts, pos, init, test, update, end);
  }

  lemma ClausesReadsElim(ts: seq<Token>, pos: nat, init: Option<A.Stmt>, test: Option<A.Expr>, update: Option<A.Expr>, end: nat)
    requires ClausesReads(ts, pos, init, test, update, end)
    ensures pos <= |ts| && ForClauses(ts, pos) == Ok(Parsed((init, test, update), end))
  {
    ClausesReadsRule(ts, pos, init, test, update, end);
  }

  /** ForStatement reads `s` from `ts[pos..end]`. */
  predicate ForReads(ts: seq<Token>, pos: nat, s: A.Stmt, end: nat, k: Delay := Later(Later(Now)))
  {
    match k
    case Now => pos <= |ts| && ForStatement(ts, pos) == Ok(Parsed(s, end))
    case Later(j) => ForReads(ts, pos, s, end, j)
  }

  lemma ForReadsRule(ts: seq<Token>, pos: nat, s: A.Stmt, end: nat)
    ensures ForReads(ts, pos, s, end) <==> pos <= |ts| && ForStatement(ts, pos) == Ok(Parsed(s, end))
  {
    assert ForReads(ts, pos, s, end, Later(Now)) <==> ForReads(ts, pos, s, end, Now);
  }

  lemma ForReadsIntro(ts: seq<Token>, pos: nat, s: A.Stmt, end: nat)
    requires pos <= |ts| && ForStatement(ts, pos) == Ok(Parsed(s, end))
    ensures ForReads(ts, pos, s, end)
  {
    ForReadsRule(ts, pos, s, end);
  }

  lemma ForReadsElim(ts: seq<Token>, pos: nat, s: A.Stmt, end: nat)
    requires ForReads(ts, pos, s, end)
    ensures pos <= |ts| && ForStatement(ts, pos) == Ok(Parsed(s, end))
  {
    ForReadsRule(ts, pos, s, end);
  }

  lemma ForShape(d: Dialect, init: Option<A.Stmt>, test: Option<A.Expr>, update: Option<A.Expr>, body: A.Stmt,
                 ts: seq<Token>, pos: nat, end: nat)
    returns (next: nat)
    requires StmtPrinted(d, A.ForStatement(init, test, update, body), ts, pos, end)
    ensures d == Web && pos + 2 < next < end <= |ts| && ts[pos] == ForToken && ts[pos + 1] == LParen
    ensures ClausesPrinted(d, init, test, update, ts, pos + 2, next) && StmtPrinted(d, body, ts, next, end)
  {
    StmtPrintedElim(d, A.ForStatement(init, test, update, body), ts, pos, end);
    var H, B := PrintForClauses(d, init, test, update), PrintStmt(d, body);
    next := pos + 2 + |H|;
    Parts3(ts, pos, [ForToken, LParen], H, B, pos + 2, next);
    AtTwo(ts, pos, ForToken, LParen);
    ClausesPrintedIntro(d, init, test, update, ts, pos + 2, next);
    StmtPrintedIntro(d, body, ts, next, end);
  }

  /** What the printed initialiser of a `for` leaves in the token sequence. */
  predicate InitPrinted(d: Dialect, init: Option<A.Stmt>, ts: seq<Token>, pos: nat, end: nat)
  {
    match init
    case None => pos < |ts| && ts[pos] == Semi && end == pos + 1
    case Some(v) => v.VariableDeclaration? && StmtPrinted(d, v, ts, pos, end)
  }

  lemma InitShape(d: Dialect, init: Option<A.Stmt>, ts: seq<Token>, pos: nat, end: nat)
    requires A.WfForInit(d, init) && At(ts, pos, PrintForInit(d, init)) && end == pos + |PrintForInit(d, init)|
    ensures InitPrinted(d, init, ts, pos, end)
  {
    match init
    case None => AtOne(ts, pos, Semi);
    case Some(v) => StmtPrintedIntro(d, v, ts, pos, end);
  }

  lemma OptShape(d: Dialect, o: Option<A.Expr>, ts: seq<Token>, pos: nat, end: nat)
    requires A.WfOptExpr(d, o) && At(ts, pos, PrintOptExpr(d, o)) && end == pos + |PrintOptExpr(d, o)|
    ensures OptPrinted(d, o, ts, pos, end)
  {
    if o.Some? {
      PrintedRule(d, o.value, ts, pos, end);
    }
  }

  lemma ClausesShape(d: Dialect, init: Option<A.Stmt>, test: Option<A.Expr>, update: Option<A.Expr>,
                     ts: seq<Token>, pos: nat, end: nat)
    returns (p1: nat, p2: nat, p3: nat)
    requires ClausesPrinted(d, init, test, update, ts, pos, end)
    ensures pos < p1 <= p2 < p3 < end <= |ts| && end == p3 + 1 && ts[p2] == Semi && ts[p3] == RParen
    ensures InitPrinted(d, init, ts, pos, p1)
    ensures OptPrinted(d, test, ts, p1, p2) && OptPrinted(d, update, ts, p2 + 1, p3)
  {
    ClausesPrintedElim(d, init, test, update, ts, pos, end);
    var I, T, U := PrintForInit(d, init), PrintOptExpr(d, test), PrintOptExpr(d, update);
    p1 := pos + |I|;
    p2 := p1 + |T|;
    p3 := p2 + 1 + |U|;
    Parts5(ts, pos, I, T, [Semi], U, [RParen], p1, p2, p2 + 1, p3);
    AtOne(ts, p2, Semi);
    AtOne(ts, p3, RParen);
    InitShape(d, init, ts, pos, p1);
    OptShape(d, test, ts, p1, p2);
    OptShape(d, update, ts, p2 + 1, p3);
  }

  /** The initialiser read back: none after eating `;`, or a whole
      VariableStatement. */
  predicate InitReads(init: Option<A.Stmt>, ts: seq<Token>, pos: nat, end: nat)
  {
    pos < |ts| &&
    match init
    case None => ts[pos] == Semi && end == pos + 1
    case Some(v) => ts[pos].kind != Semicolon && VariableReads(Web, ts, pos, v, end)
  }

  lemma ForInitParse(init: Option<A.Stmt>, ts: seq<Token>, pos: nat, end: nat)
    requires InitReads(init, ts, pos, end)
    ensures ForInit(ts, pos) == Ok(Parsed(init, end))
  {
    if init.Some? {
      VariableReadsElim(Web, ts, pos, init.value, end);
    }
  }

  lemma ForInitRoundTrip(init: Option<A.Stmt>, ts: seq<Token>, pos: nat, end: nat)
    requires InitPrinted(Web, init, ts, pos, end)
    ensures InitReads(init, ts, pos, end)
  {
    match init
    case None =>
    case Some(v) =>
      VariableRoundTrip(Web, v.kind, v.declarations, ts, pos, end);
  }

  lemma ClausesParse(init: Option<A.Stmt>, test: Option<A.Expr>, update: Option<A.Expr>,
                     ts: seq<Token>, pos: nat, p1: nat, p2: nat, p3: nat)
    requires pos < p1 <= p2 < p3 < |ts| && ts[p2] == Semi && ts[p3] == RParen
    requires ForInit(ts, pos) == Ok(Parsed(init, p1))
    requires OptionalExpression(Web, ts, p1, ts[p1].kind == Semicolon) == Ok(Parsed(test, p2))
    requires OptionalExpression(Web, ts, p2 + 1, ts[p2 + 1].kind == CloseParen) == Ok(Parsed(update, p3))
    ensures ForClauses(ts, pos) == Ok(Parsed((init, test, update), p3 + 1))
  {
  }

  lemma ClausesStep(init: Option<A.Stmt>, test: Option<A.Expr>, update: Option<A.Expr>,
                    ts: seq<Token>, pos: nat, p1: nat, p2: nat, p3: nat)
    requires pos < p1 <= p2 < p3 < |ts| && ts[p2] == Semi && ts[p3] == RParen
    requires InitReads(init, ts, pos, p1)
    requires OptReads(Web, test, ts, p1, p2, Semicolon) && OptReads(Web, update, ts, p2 + 1, p3, CloseParen)
    ensures ClausesReads(ts, pos, init, test, update, p3 + 1)
  {
    ForInitParse(init, ts, pos, p1);
    OptionalParse(Web, test, ts, p1, p2, Semicolon);
    OptionalParse(Web, update, ts, p2 + 1, p3, CloseParen);
    ClausesParse(init, test, update, ts, pos, p1, p2, p3);
    ClausesReadsIntro(ts, pos, init, test, update, p3 + 1);
  }

  /** The clauses of a printed `for` are read back by ForClauses. */
  lemma ClausesRoundTrip(init: Option<A.Stmt>, test: Option<A.Expr>, update: Option<A.Expr>,
                         ts: seq<Token>, pos: nat, end: nat)
    requires ClausesPrinted(Web, init, test, update, ts, pos, end)
    ensures ClausesReads(ts, pos, init, test, update, end)
  {
    var p1, p2, p3 := ClausesShape(Web, init, test, update, ts, pos, end);
    ForInitRoundTrip(init, ts, pos, p1);
    OptionalRoundTrip(Web, test, ts, p1, p2, Semicolon);
    OptionalRoundTrip(Web, update, ts, p2 + 1, p3, CloseParen);
    ClausesStep(init, test, update, ts, pos, p1, p2, p3);
  }

  lemma ForParse(init: Option<A.Stmt>, test: Option<A.Expr>, update: Option<A.Expr>, body: A.Stmt,
                 ts: seq<Token>, pos: nat, next: nat, end: nat)
    requires pos + 2 < next < end <= |ts| && ts[pos] == ForToken && ts[pos + 1] == LParen
    requires ForClauses(ts, pos + 2) == Ok(Parsed((init, test, update), next))
    requires Statement(Web, ts, next) == Ok(Parsed(body, end))
    ensures ForStatement(ts, pos) == Ok(Parsed(A.ForStatement(init, test, update, body), end))
  {
  }

  lemma ForStep(init: Option<A.Stmt>, test: Option<A.Expr>, update: Option<A.Expr>, body: A.Stmt,
                ts: seq<Token>, pos: nat, next: nat, end: nat)
    requires pos + 2 < next < end <= |ts| && ts[pos] == ForToken && ts[pos + 1] == LParen
    requires ClausesReads(ts, pos + 2, init, test, update, next) && StatementReads(Web, ts, next, body, end)
    ensures ForReads(ts, pos, A.ForStatement(init, test, update, body), end)
  {
    ClausesReadsElim(ts, pos + 2, init, test, update, next);
    StatementReadsElim(Web, ts, next, body, end);
    ForParse(init, test, update, body, ts, pos, next, end);
    ForReadsIntro(ts, pos, A.ForStatement(init, test, update, body), end);
  }

  lemma ForAsStatement(s: A.Stmt, ts: seq<Token>, pos: nat, end: nat)
    requires pos < |ts| && ts[pos] == ForToken && ForReads(ts, pos, s, end)
    ensures StatementReads(Web, ts, pos, s, end)
  {
    ForReadsElim(ts, pos, s, end);
    StatementIsFor(ts, pos);
    StatementReadsIntro(Web, ts, pos, s, end);
  }

  lemma {:induction false} ForRoundTrip(d: Dialect, init: Option<A.Stmt>, test: Option<A.Expr>, update: Option<A.Expr>,
                                        body: A.Stmt, ts: seq<Token>, pos: nat, end: nat)
    requires StmtPrinted(d, A.ForStatement(init, test, update, body), ts, pos, end)
    requires A.OpenIf(body) ==> !LookaheadIs(ts, end, KwElse)
    ensures d == Web && StatementReads(d, ts, pos, A.ForStatement(init, test, update, body), end)
    decreases A.ForStatement(init, test, update, body), 0
  {
    var next := ForShape(d, init, test, update, body, ts, pos, end);
    ClausesRoundTrip(init, test, update, ts, pos + 2, next);
    StatementRoundTrip(d, body, ts, next, end);
    ForStep(init, test, update, body, ts, pos, next, end);
    ForAsStatement(A.ForStatement(init, test, update, body), ts, pos, end);
  }

  // ---------------------------------------------------------------------------
  // Function and class declarations

  /** `( ps )` occupies `ts[pos..end]`. */
  predicate ParamsPrinted(ps: seq<string>, ts: seq<Token>, pos: nat, end: nat, k: Delay := Later(Later(Now)))
  {
    match k
    case Now => end == pos + |PrintParameters(ps)| && At(ts, pos, PrintParameters(ps))
    case Later(j) => ParamsPrinted(ps, ts, pos, end, j)
  }

  lemma ParamsPrintedRule(ps: seq<string>, ts: seq<Token>, pos: nat, end: nat)
    ensures ParamsPrinted(ps, ts, pos, end) <==> end == pos + |PrintParameters(ps)| && At(ts, pos, PrintParameters(ps))
  {
    assert ParamsPrinted(ps, ts, pos, end, Later(Now)) <==> ParamsPrinted(ps, ts, pos, end, Now);
  }

  lemma ParamsPrintedIntro(ps: seq<string>, ts: seq<Token>, pos: nat, end: nat)
    requires end == pos + |PrintParameters(ps)| && At(ts, pos, PrintParameters(ps))
    ensures ParamsPrinted(ps, ts, pos, end)
  {
    ParamsPrintedRule(ps, ts, pos, end);
  }

  lemma ParamsPrintedElim(ps: seq<string>, ts: seq<Token>, pos: nat, end: nat)
    requires ParamsPrinted(ps, ts, pos, end)
    ensures end == pos + |PrintParameters(ps)| && At(ts, pos, PrintParameters(ps))
  {
    ParamsPrintedRule(ps, ts, pos, end);
  }

  /** Parameters reads `ps` from `ts[pos..end]`. */
  predicate ParamsReads(ts: seq<Token>, pos: nat, ps: seq<string>, end: nat, k: Delay := Later(Later(Now)))
  {
    match k
    case Now => pos <= |ts| && Parameters(ts, pos) == Ok(Parsed(ps, end))
    case Later(j) => ParamsReads(ts, pos, ps, end, j)
  }

  lemma ParamsReadsRule(ts: seq<Token>, pos: nat, ps: seq<string>, end: nat)
    ensures ParamsReads(ts, pos, ps, end) <==> pos <= |ts| && Parameters(ts, pos) == Ok(Parsed(ps, end))
  {
    assert ParamsReads(ts, pos, ps, end, Later(Now)) <==> ParamsReads(ts, pos, ps, end, Now);
  }

  lemma ParamsReadsIntro(ts: seq<Token>, pos: nat, ps: seq<string>, end: nat)
    requires pos <= |ts| && Parameters(ts, pos) == Ok(Parsed(ps, end))
    ensures ParamsReads(ts, pos, ps, end)
  {
    ParamsReadsRule(ts, pos, ps, end);
  }

  lemma ParamsReadsElim(ts: seq<Token>, pos: nat, ps: seq<string>, end: nat)
    requires ParamsReads(ts, pos, ps, end)
    ensures pos <= |ts| && Parameters(ts, pos) == Ok(Parsed(ps, end))
  {
    ParamsReadsRule(ts, pos, ps, end);
  }

  /** FunctionDeclaration reads `s` from `ts[pos..end]`. */
  predicate FunctionReads(d: Dialect, ts: seq<Token>, pos: nat, s: A.Stmt, end: nat, k: Delay := Later(Later(Now)))
  {
    match k
    case Now => pos <= |ts| && FunctionDeclaration(d, ts, pos) == Ok(Parsed(s, end))
    case Later(j) => FunctionReads(d, ts, pos, s, end, j)
  }

  lemma FunctionReadsRule(d: Dialect, ts: seq<Token>, pos: nat, s: A.Stmt, end: nat)
    ensures FunctionReads(d, ts, pos, s, end) <==> pos <= |ts| && FunctionDeclaration(d, ts, pos) == Ok(Parsed(s, end))
  {
    assert FunctionReads(d, ts, pos, s, end, Later(Now)) <==> FunctionReads(d, ts, pos, s, end, Now);
  }

  lemma FunctionReadsIntro(d: Dialect, ts: seq<Token>, pos: nat, s: A.Stmt, end: nat)
    requires pos <= |ts| && FunctionDeclaration(d, ts, pos) == Ok(Parsed(s, end))
    ensures FunctionReads(d, ts, pos, s, end)
  {
    FunctionReadsRule(d, ts, pos, s, end);
  }

  lemma FunctionReadsElim(d: Dialect, ts: seq<Token>, pos: nat, s: A.Stmt, end: nat)
    requires FunctionReads(d, ts, pos, s, end)
    ensures pos <= |ts| && FunctionDeclaration(d, ts, pos) == Ok(Parsed(s, end))
  {
    FunctionReadsRule(d, ts, pos, s, end);
  }

  lemma {:induction false} MoreParamsRoundTrip(list: seq<string>, ps: seq<string>, ts: seq<Token>, pos: nat, close: nat)
    requires At(ts, pos, PrintMoreParams(ps)) && close == pos + |PrintMoreParams(ps)|
    requires close < |ts| && ts[close] == RParen
    ensures FormalParameterTail(list, ts, pos) == Ok(Parsed(list + ps, close))
    decreases ps
  {
    if |ps| == 0 {
      assert list + ps == list;
    } else {
      var P := [CommaToken, Token(IDENTIFIER, ps[0])];
      Parts2(ts, pos, P, PrintMoreParams(ps[1..]), pos + 2);
      AtTwo(ts, pos, CommaToken, Token(IDENTIFIER, ps[0]));
      MoreParamsRoundTrip(list + [ps[0]], ps[1..], ts, pos + 2, close);
      assert list + [ps[0]] + ps[1..] == list + ps;
      IdentifierAt(ts, pos + 1, ps[0]);
    }
  }

  /** `( params )` is read back by the parameter rules. */
  lemma ParamsRoundTrip(ps: seq<string>, ts: seq<Token>, pos: nat, end: nat)
    requires ParamsPrinted(ps, ts, pos, end)
    ensures ParamsReads(ts, pos, ps, end)
  {
    ParamsPrintedElim(ps, ts, pos, end);
    var close := pos + 1 + |PrintParams(ps)|;
    Parts3(ts, pos, [LParen], PrintParams(ps), [RParen], pos + 1, close);
    AtOne(ts, pos, LParen);
    AtOne(ts, close, RParen);
    if |ps| > 0 {
      var P := [Token(IDENTIFIER, ps[0])];
      Parts2(ts, pos + 1, P, PrintMoreParams(ps[1..]), pos + 2);
      AtOne(ts, pos + 1, Token(IDENTIFIER, ps[0]));
      MoreParamsRoundTrip([ps[0]], ps[1..], ts, pos + 2, close);
      assert [ps[0]] + ps[1..] == ps;
      assert FormalParameterList(ts, pos + 1) == Ok(Parsed(ps, close));
    }
    ParamsReadsIntro(ts, pos, ps, end);
  }

  lemma FunctionShape(d: Dialect, id: string, ps: seq<string>, body: A.Stmt, ts: seq<Token>, pos: nat, end: nat)
    returns (p1: nat)
    requires StmtPrinted(d, A.FunctionDeclaration(id, ps, body), ts, pos, end)
    ensures pos + 2 < p1 < end <= |ts|
    ensures ts[pos] == FunctionToken && ts[pos + 1] == Token(IDENTIFIER, id) && ParamsPrinted(ps, ts, pos + 2, p1)
    ensures StmtPrinted(d, body, ts, p1, end) && (d == Src ==> body.BlockStatement?)
  {
    StmtPrintedElim(d, A.FunctionDeclaration(id, ps, body), ts, pos, end);
    var P, B := PrintParameters(ps), PrintStmt(d, body);
    p1 := pos + 2 + |P|;
    Parts3(ts, pos, [FunctionToken, Token(IDENTIFIER, id)], P, B, pos + 2, p1);
    AtTwo(ts, pos, FunctionToken, Token(IDENTIFIER, id));
    ParamsPrintedIntro(ps, ts, pos + 2, p1);
    StmtPrintedIntro(d, body, ts, p1, end);
  }

  lemma FunctionParse(d: Dialect, id: string, ps: seq<string>, body: A.Stmt, ts: seq<Token>, pos: nat, p1: nat, end: nat)
    requires pos + 2 < p1 < end <= |ts|
    requires ts[pos] == FunctionToken && ts[pos + 1] == Token(IDENTIFIER, id)
    requires Parameters(ts, pos + 2) == Ok(Parsed(ps, p1))
    requires FunctionBody(d, ts, p1) == Ok(Parsed(body, end))
    ensures FunctionDeclaration(d, ts, pos) == Ok(Parsed(A.FunctionDeclaration(id, ps, body), end))
  {
    IdentifierAt(ts, pos + 1, id);
  }

  /** A function's body: a block in Src, any statement in Web. */
  predicate BodyReads(d: Dialect, ts: seq<Token>, pos: nat, body: A.Stmt, end: nat)
  {
    match d
    case Src => BlockReads(d, ts, pos, body, end)
    case Web => StatementReads(d, ts, pos, body, end)
  }

  lemma FunctionStep(d: Dialect, id: string, ps: seq<string>, body: A.Stmt, ts: seq<Token>, pos: nat, p1: nat, end: nat)
    requires pos + 2 < p1 < end <= |ts|
    requires ts[pos] == FunctionToken && ts[pos + 1] == Token(IDENTIFIER, id)
    requires ParamsReads(ts, pos + 2, ps, p1) && BodyReads(d, ts, p1, body, end)
    ensures FunctionReads(d, ts, pos, A.FunctionDeclaration(id, ps, body), end)
  {
    ParamsReadsElim(ts, pos + 2, ps, p1);
    match d {
      case Src => BlockReadsElim(d, ts, p1, body, end);
      case Web => StatementReadsElim(d, ts, p1, body, end);
    }
    FunctionParse(d, id, ps, body, ts, pos, p1, end);
    FunctionReadsIntro(d, ts, pos, A.FunctionDeclaration(id, ps, body), end);
  }

  lemma FunctionAsStatement(d: Dialect, s: A.Stmt, ts: seq<Token>, pos: nat, end: nat)
    requires pos < |ts| && ts[pos] == FunctionToken && FunctionReads(d, ts, pos, s, end)
    ensures StatementReads(d, ts, pos, s, end)
  {
    FunctionReadsElim(d, ts, pos, s, end);
    StatementIsFunction(d, ts, pos);
    StatementReadsIntro(d, ts, pos, s, end);
  }

  lemma {:induction false} FunctionRoundTrip(d: Dialect, id: string, ps: seq<string>, body: A.Stmt,
                                             ts: seq<Token>, pos: nat, end: nat)
    requires StmtPrinted(d, A.FunctionDeclaration(id, ps, body), ts, pos, end)
    requires A.OpenIf(body) ==> !LookaheadIs(ts, end, KwElse)
    ensures StatementReads(d, ts, pos, A.FunctionDeclaration(id, ps, body), end)
    decreases A.FunctionDeclaration(id, ps, body), 0
  {
    var p1 := FunctionShape(d, id, ps, body, ts, pos, end);
    ParamsRoundTrip(ps, ts, pos + 2, p1);
    match d {
      case Src => BlockRoundTrip(d, body.statements, ts, p1, end);
      case Web => StatementRoundTrip(d, body, ts, p1, end);
    }
    FunctionStep(d, id, ps, body, ts, pos, p1, end);
    FunctionAsStatement(d, A.FunctionDeclaration(id, ps, body), ts, pos, end);
  }

  lemma ClassShape(d: Dialect, id: string, body: A.Stmt, ts: seq<Token>, pos: nat, end: nat)
    requires StmtPrinted(d, A.ClassDeclaration(id, body), ts, pos, end)
    ensures d == Src && pos + 2 < end <= |ts| && ts[pos] == ClassToken && ts[pos + 1] == Token(IDENTIFIER, id)
    ensures body.BlockStatement? && StmtPrinted(d, body, ts, pos + 2, end)
  {
    StmtPrintedElim(d, A.ClassDeclaration(id, body), ts, pos, end);
    var B := PrintStmt(d, body);
    Parts2(ts, pos, [ClassToken, Token(IDENTIFIER, id)], B, pos + 2);
    AtTwo(ts, pos, ClassToken, Token(IDENTIFIER, id));
    StmtPrintedIntro(d, body, ts, pos + 2, end);
  }

  lemma ClassParse(id: string, body: A.Stmt, ts: seq<Token>, pos: nat, end: nat)
    requires pos + 2 < end <= |ts| && ts[pos] == ClassToken && ts[pos + 1] == Token(IDENTIFIER, id)
    requires BlockStatement(Src, ts, pos + 2) == Ok(Parsed(body, end))
    ensures ClassDeclaration(ts, pos) == Ok(Parsed(A.ClassDeclaration(id, body), end))
  {
    IdentifierAt(ts, pos + 1, id);
  }

  lemma ClassRoundTrip(d: Dialect, id: string, body: A.Stmt, ts: seq<Token>, pos: nat, end: nat)
    requires StmtPrinted(d, A.ClassDeclaration(id, body), ts, pos, end)
    ensures StatementReads(d, ts, pos, A.ClassDeclaration(id, body), end)
    decreases A.ClassDeclaration(id, body), 0
  {
    ClassShape(d, id, body, ts, pos, end);
    BlockRoundTrip(d, body.statements, ts, pos + 2, end);
    BlockReadsElim(d, ts, pos + 2, body, end);
    ClassParse(id, body, ts, pos, end);
    StatementIsClass(ts, pos);
    StatementReadsIntro(d, ts, pos, A.ClassDeclaration(id, body), end);
  }

  // ---------------------------------------------------------------------------
  // Statements and programs

  /** A printed statement is read back by Statement, provided an `else` does
      not follow a statement that ends in an `if` without one. */
  lemma {:induction false} StatementRoundTrip(d: Dialect, s: A.Stmt, ts: seq<Token>, pos: nat, end: nat)
    requires StmtPrinted(d, s, ts, pos, end)
    requires A.OpenIf(s) ==> !LookaheadIs(ts, end, KwElse)
    ensures StatementReads(d, ts, pos, s, end)
    decreases s, 1
  {
    match s
    case EmptyStatement => EmptyRoundTrip(d, ts, pos, end);
    case BlockStatement(body) =>
      BlockRoundTrip(d, body, ts, pos, end);
      var _ := BlockShape(d, body, ts, pos, end);
      BlockAsStatement(d, s, ts, pos, end);
    case ExpressionStatement(e) => ExpressionStatementRoundTrip(d, e, ts, pos, end);
    case VariableDeclaration(kind, vs) =>
      VariableRoundTrip(d, kind, vs, ts, pos, end);
      VariableAsStatement(d, s, ts, pos, end);
    case IfStatement(test, c, alt) => IfRoundTrip(d, test, c, alt, ts, pos, end);
    case WhileStatement(test, body) => WhileRoundTrip(d, test, body, ts, pos, end);
    case ForStatement(init, test, update, body) => ForRoundTrip(d, init, test, update, body, ts, pos, end);
    case FunctionDeclaration(id, ps, body) => FunctionRoundTrip(d, id, ps, body, ts, pos, end);
    case ReturnStatement(arg) => ReturnRoundTrip(d, arg, ts, pos, end);
    case ClassDeclaration(id, body) => ClassRoundTrip(d, id, body, ts, pos, end);
  }

  /** Printing a well-formed program and parsing the tokens gives the program
      back. */
  lemma ProgramRoundTrip(d: Dialect, p: A.Program)
    requires A.WfProgram(d, p)
    ensures Program(d, PrintProgram(d, p)) == Ok(p)
  {
    var ts := PrintProgram(d, p);
    assert ts[0..|ts|] == ts;
    AtRule(ts, 0, ts);
    StmtsPrintedIntro(d, p.body, ts, 0, |ts|);
    ListRoundTrip(d, None, [], p.body, ts, 0, |ts|);
    ListReadsElim(d, None, [], ts, 0, [] + p.body, |ts|);
    assert [] + p.body == p.body;
    StmtsStart(d, p.body, ts, 0, |ts|);
    ListHead(d, None, ts, 0);
  }
}
