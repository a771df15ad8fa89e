/** Consequences of the rule order of parser-web/spec.js: which token
    `getNextToken` returns for the inputs whose lexing the order decides. */
module WebRuleOrder {
  import opened Wrappers
  import opened Chars
  import opened Tokens
  import opened Patterns
  import opened Rules
  import opened Tokenizer
  import opened RuleOrder

  // Which rules of the web table can start with a given character. Each is a
  // separate lemma: the solver evaluates the table one index at a time.
  lemma WebStartsSpace(c: char) requires IsSpace(c) ensures NoneStart(WebSpec, c, 0, 9) { }
  lemma WebStartsSlash() ensures NoneStart(WebSpec, '/', 0, 9) { }
  lemma WebStartsSlashLater() ensures NoneStart(WebSpec, '/', 12, 30) { }
  lemma WebStartsArithLow(c: char) requires c == '+' || c == '-' || c == '*' ensures NoneStart(WebSpec, c, 0, 15) { }
  lemma WebStartsArithHigh(c: char) requires c == '+' || c == '-' || c == '*' ensures NoneStart(WebSpec, c, 15, 30) { }
  lemma WebStartsRelational(c: char) requires c == '<' || c == '>' ensures NoneStart(WebSpec, c, 0, 25) { }
  lemma WebStartsBang() ensures NoneStart(WebSpec, '!', 0, 26) { }
  lemma WebStartsEquals() ensures NoneStart(WebSpec, '=', 0, 26) { }
  lemma WebStartsAtLow() ensures NoneStart(WebSpec, '@', 0, 18) { }
  lemma WebStartsAtHigh() ensures NoneStart(WebSpec, '@', 18, 35) { }
  lemma WebStartsQuoteLow() ensures NoneStart(WebSpec, '"', 0, 14) { }
  lemma WebStartsQuoteHigh() ensures NoneStart(WebSpec, '"', 15, 35) { }

  lemma WebStartsLetter(c: char)
    requires IsWordChar(c) && !IsDigit(c)
    ensures NoneStart(WebSpec, c, 0, 15)
  {
  }

  lemma WebStartsLetterLater(c: char)
    requires IsWordChar(c) && !IsDigit(c)
    ensures NoneStart(WebSpec, c, 25, 34)
  {
  }

  // ---------------------------------------------------------------------------
  // Skip rules

  /** Whitespace produces no token: scanning goes on after the whole run. */
  lemma {:induction false} WebWhitespace(s: string, cursor: nat)
    requires cursor < |s| && IsSpace(s[cursor])
    ensures GetNextToken(WebSpec, s, cursor) == GetNextToken(WebSpec, s, Span(s, cursor, IsSpace))
  {
    var rest := s[cursor..];
    WebStartsSpace(rest[0]);
    PassStart(WebSpec, rest, 0, 9);
    SpacesSkip(WebSpec, s, cursor, 9);
  }

  /** A `//` comment produces no token: scanning goes on at the end of the line. */
  lemma {:induction false} WebLineComment(s: string, cursor: nat)
    requires cursor + 2 <= |s| && s[cursor] == '/' && s[cursor + 1] == '/'
    ensures GetNextToken(WebSpec, s, cursor) == GetNextToken(WebSpec, s, Span(s, cursor + 2, NotLineTerminator))
  {
    var rest := s[cursor..];
    assert rest[0] == '/' && "//" <= rest;
    WebStartsSlash();
    PassStart(WebSpec, rest, 0, 9);
    assert MatchLen(WebSpec[9].pattern, rest).None?;
    Pass(WebSpec, rest, 9, 10);
    LineCommentSkip(WebSpec, s, cursor, 10);
  }

  /** A closed block comment produces no token: scanning goes on after the first
      `*` `/` that follows the opener. The comment rules come before the `/` and
      `/=` rules. */
  lemma {:induction false} WebBlockComment(s: string, cursor: nat, close: nat)
    requires cursor + 2 <= close && close + 1 < |s| && s[cursor] == '/' && s[cursor + 1] == '*'
    requires s[close] == '*' && s[close + 1] == '/'
    requires forall k :: cursor + 2 <= k < close ==> !(s[k] == '*' && s[k + 1] == '/')
    ensures GetNextToken(WebSpec, s, cursor) == GetNextToken(WebSpec, s, close + 2)
  {
    var rest := s[cursor..];
    assert rest[0] == '/' && "/*" <= rest;
    WebStartsSlash();
    PassStart(WebSpec, rest, 0, 9);
    assert MatchLen(WebSpec[9].pattern, rest).None? && MatchLen(WebSpec[10].pattern, rest).None?;
    Pass(WebSpec, rest, 9, 11);
    BlockCommentSkip(WebSpec, s, cursor, close, 11);
  }

  lemma {:induction false} WebOpenCommentPasses(rest: string)
    requires |rest| >= 2 && rest[0] == '/' && rest[1] == '*'
    requires forall k :: 2 <= k && k + 1 < |rest| ==> !(rest[k] == '*' && rest[k + 1] == '/')
    ensures FirstMatchFrom(WebSpec, rest, 0) == FirstMatchFrom(WebSpec, rest, 33)
  {
    assert FindCommentEnd(rest, 2).None?;
    WebStartsSlash();
    PassStart(WebSpec, rest, 0, 9);
    assert MatchLen(WebSpec[9].pattern, rest).None? && MatchLen(WebSpec[10].pattern, rest).None?;
    assert MatchLen(WebSpec[11].pattern, rest).None?;
    Pass(WebSpec, rest, 9, 12);
    WebStartsSlashLater();
    PassStart(WebSpec, rest, 12, 30);
    assert MatchLen(WebSpec[30].pattern, rest).None? && MatchLen(WebSpec[31].pattern, rest).None?;
    assert MatchLen(WebSpec[32].pattern, rest).None?;
    Pass(WebSpec, rest, 30, 33);
  }

  /** An unterminated block comment opener is not a comment: its slash lexes as
      the division operator. */
  lemma {:induction false} WebUnterminatedComment(s: string, cursor: nat)
    requires cursor + 2 <= |s| && s[cursor] == '/' && s[cursor + 1] == '*'
    requires forall k :: cursor + 2 <= k && k + 1 < |s| ==> !(s[k] == '*' && s[k + 1] == '/')
    ensures GetNextToken(WebSpec, s, cursor) == Ok(Some((Token(MULTIPLICATIVE_OPERATOR, "/"), cursor + 1)))
  {
    var rest := s[cursor..];
    assert forall k :: 0 <= k < |rest| ==> rest[k] == s[cursor + k];
    WebOpenCommentPasses(rest);
    Hit(WebSpec, s, cursor, 33, 1);
    assert s[cursor..cursor + 1] == "/";
  }

  // ---------------------------------------------------------------------------
  // Operators

  lemma {:induction false} WebComplexAssignPasses(rest: string)
    requires |rest| > 1 && rest[0] in "+-*/" && rest[1] == '='
    ensures FirstMatchFrom(WebSpec, rest, 0) == FirstMatchFrom(WebSpec, rest, 30)
  {
    if rest[0] == '/' {
      WebStartsSlash();
      PassStart(WebSpec, rest, 0, 9);
      assert MatchLen(WebSpec[9].pattern, rest).None? && MatchLen(WebSpec[10].pattern, rest).None?;
      assert MatchLen(WebSpec[11].pattern, rest).None?;
      Pass(WebSpec, rest, 9, 12);
      WebStartsSlashLater();
      PassStart(WebSpec, rest, 12, 30);
    } else {
      WebStartsArithLow(rest[0]);
      PassStart(WebSpec, rest, 0, 15);
      WebStartsArithHigh(rest[0]);
      PassStart(WebSpec, rest, 15, 30);
    }
  }

  /** `+=`, `-=`, `*=` and `/=` are one COMPLEX_ASSIGN token each: that rule
      precedes the ADDITIVE and MULTIPLICATIVE rules, and `/=` is neither
      comment. */
  lemma {:induction false} WebComplexAssign(s: string, cursor: nat)
    requires cursor + 1 < |s| && s[cursor] in "+-*/" && s[cursor + 1] == '='
    ensures GetNextToken(WebSpec, s, cursor) == Ok(Some((Token(COMPLEX_ASSIGN, [s[cursor], '=']), cursor + 2)))
  {
    WebComplexAssignPasses(s[cursor..]);
    Hit(WebSpec, s, cursor, 30, 2);
    assert s[cursor..cursor + 2] == [s[cursor], '='];
  }

  /** A `<` or `>` not followed by `=` is one RELATIONAL_OPERATOR token ... */
  lemma {:induction false} WebRelational(s: string, cursor: nat)
    requires cursor < |s| && (s[cursor] == '<' || s[cursor] == '>')
    requires !(cursor + 1 < |s| && s[cursor + 1] == '=')
    ensures GetNextToken(WebSpec, s, cursor) == Ok(Some((Token(RELATIONAL_OPERATOR, [s[cursor]]), cursor + 1)))
  {
    WebStartsRelational(s[cursor]);
    PassStart(WebSpec, s[cursor..], 0, 25);
    Hit(WebSpec, s, cursor, 25, 1);
    assert s[cursor..cursor + 1] == [s[cursor]];
  }

  /** ... and so are `<=` and `>=`. */
  lemma {:induction false} WebRelationalEq(s: string, cursor: nat)
    requires cursor + 1 < |s| && (s[cursor] == '<' || s[cursor] == '>') && s[cursor + 1] == '='
    ensures GetNextToken(WebSpec, s, cursor) == Ok(Some((Token(RELATIONAL_OPERATOR, [s[cursor], '=']), cursor + 2)))
  {
    WebStartsRelational(s[cursor]);
    PassStart(WebSpec, s[cursor..], 0, 25);
    Hit(WebSpec, s, cursor, 25, 2);
    assert s[cursor..cursor + 2] == [s[cursor], '='];
  }

  /** `!=` not followed by `=` is one EQUALITY_OPERATOR token: the equality rule
      precedes the LOGICAL_NOT rule ... */
  lemma {:induction false} WebNotEqual(s: string, cursor: nat)
    requires cursor + 1 < |s| && s[cursor] == '!' && s[cursor + 1] == '=' && !(cursor + 2 < |s| && s[cursor + 2] == '=')
    ensures GetNextToken(WebSpec, s, cursor) == Ok(Some((Token(EQUALITY_OPERATOR, "!="), cursor + 2)))
  {
    WebStartsBang();
    PassStart(WebSpec, s[cursor..], 0, 26);
    Hit(WebSpec, s, cursor, 26, 2);
    assert s[cursor..cursor + 2] == "!=";
  }

  /** ... and so is `!==` ... */
  lemma {:induction false} WebStrictNotEqual(s: string, cursor: nat)
    requires cursor + 2 < |s| && s[cursor] == '!' && s[cursor + 1] == '=' && s[cursor + 2] == '='
    ensures GetNextToken(WebSpec, s, cursor) == Ok(Some((Token(EQUALITY_OPERATOR, "!=="), cursor + 3)))
  {
    WebStartsBang();
    PassStart(WebSpec, s[cursor..], 0, 26);
    Hit(WebSpec, s, cursor, 26, 3);
    assert s[cursor..cursor + 3] == "!==";
  }

  /** ... while a `!` not followed by `=` is LOGICAL_NOT. */
  lemma {:induction false} WebBangPasses(rest: string)
    requires |rest| > 0 && rest[0] == '!' && !(|rest| > 1 && rest[1] == '=')
    ensures FirstMatchFrom(WebSpec, rest, 0) == FirstMatchFrom(WebSpec, rest, 31)
  {
    WebStartsBang();
    PassStart(WebSpec, rest, 0, 26);
    assert forall j :: 26 <= j < 31 ==> MatchLen(WebSpec[j].pattern, rest).None?;
    Pass(WebSpec, rest, 26, 31);
  }

  lemma {:induction false} WebBang(s: string, cursor: nat)
    requires cursor < |s| && s[cursor] == '!' && !(cursor + 1 < |s| && s[cursor + 1] == '=')
    ensures GetNextToken(WebSpec, s, cursor) == Ok(Some((Token(LOGICAL_NOT, "!"), cursor + 1)))
  {
    WebBangPasses(s[cursor..]);
    Hit(WebSpec, s, cursor, 31, 1);
    assert s[cursor..cursor + 1] == "!";
  }

  /** `==` not followed by `=` is EQUALITY_OPERATOR ... */
  lemma {:induction false} WebEquality(s: string, cursor: nat)
    requires cursor + 1 < |s| && s[cursor] == '=' && s[cursor + 1] == '=' && !(cursor + 2 < |s| && s[cursor + 2] == '=')
    ensures GetNextToken(WebSpec, s, cursor) == Ok(Some((Token(EQUALITY_OPERATOR, "=="), cursor + 2)))
  {
    WebStartsEquals();
    PassStart(WebSpec, s[cursor..], 0, 26);
    Hit(WebSpec, s, cursor, 26, 2);
    assert s[cursor..cursor + 2] == "==";
  }

  /** ... and so is `===` ... */
  lemma {:induction false} WebStrictEquality(s: string, cursor: nat)
    requires cursor + 2 < |s| && s[cursor] == '=' && s[cursor + 1] == '=' && s[cursor + 2] == '='
    ensures GetNextToken(WebSpec, s, cursor) == Ok(Some((Token(EQUALITY_OPERATOR, "==="), cursor + 3)))
  {
    WebStartsEquals();
    PassStart(WebSpec, s[cursor..], 0, 26);
    Hit(WebSpec, s, cursor, 26, 3);
    assert s[cursor..cursor + 3] == "===";
  }

  /** ... while an `=` not followed by `=` is SIMPLE_ASSIGN. */
  lemma {:induction false} WebAssignPasses(rest: string)
    requires |rest| > 0 && rest[0] == '=' && !(|rest| > 1 && rest[1] == '=')
    ensures FirstMatchFrom(WebSpec, rest, 0) == FirstMatchFrom(WebSpec, rest, 29)
  {
    WebStartsEquals();
    PassStart(WebSpec, rest, 0, 26);
    assert forall j :: 26 <= j < 29 ==> MatchLen(WebSpec[j].pattern, rest).None?;
    Pass(WebSpec, rest, 26, 29);
  }

  lemma {:induction false} WebAssign(s: string, cursor: nat)
    requires cursor < |s| && s[cursor] == '=' && !(cursor + 1 < |s| && s[cursor + 1] == '=')
    ensures GetNextToken(WebSpec, s, cursor) == Ok(Some((Token(SIMPLE_ASSIGN, "="), cursor + 1)))
  {
    WebAssignPasses(s[cursor..]);
    Hit(WebSpec, s, cursor, 29, 1);
    assert s[cursor..cursor + 1] == "=";
  }

  // ---------------------------------------------------------------------------
  // Errors

  /** No rule of the web table starts with `@`: it is a lexical error there. */
  lemma {:induction false} WebAtSign(s: string, cursor: nat)
    requires cursor < |s| && s[cursor] == '@'
    ensures GetNextToken(WebSpec, s, cursor) == Err(LexError(cursor, '@'))
  {
    var rest := s[cursor..];
    WebStartsAtLow();
    PassStart(WebSpec, rest, 0, 18);
    WebStartsAtHigh();
    PassStart(WebSpec, rest, 18, 35);
    StuckAt(WebSpec, s, cursor);
  }

  lemma {:induction false} WebQuotePasses(rest: string)
    requires |rest| > 0 && rest[0] == '"'
    requires forall k :: 0 < k < |rest| ==> rest[k] != '"'
    ensures FirstMatchFrom(WebSpec, rest, 0) == FirstMatchFrom(WebSpec, rest, 35)
  {
    WebStartsQuoteLow();
    PassStart(WebSpec, rest, 0, 14);
    assert IndexOf(rest, '"', 1).None?;
    assert MatchLen(WebSpec[14].pattern, rest).None?;
    Pass(WebSpec, rest, 14, 15);
    WebStartsQuoteHigh();
    PassStart(WebSpec, rest, 15, 35);
  }

  /** A `"` with no closing `"` after it matches no rule: the error names the
      quote. */
  lemma {:induction false} WebUnterminatedString(s: string, cursor: nat)
    requires cursor < |s| && s[cursor] == '"'
    requires forall k :: cursor < k < |s| ==> s[k] != '"'
    ensures GetNextToken(WebSpec, s, cursor) == Err(LexError(cursor, '"'))
  {
    var rest := s[cursor..];
    assert forall k :: 0 < k < |rest| ==> rest[k] == s[cursor + k];
    WebQuotePasses(rest);
    StuckAt(WebSpec, s, cursor);
  }

  // ---------------------------------------------------------------------------
  // Keywords and identifiers

  /** The words the web table marks with a trailing `\b`, and those it does not. */
  const WebBoundedKeywords: seq<string> := ["true", "false", "null"]
  const WebPrefixKeywords: seq<string> :=
    ["let", "var", "const", "if", "else", "while", "for", "function", "return", "this"]

  lemma WebBoundedShape()
    ensures forall j :: 15 <= j < 17 ==>
      && WebSpec[j].pattern.Words? && WebSpec[j].pattern.boundary
      && forall k :: 0 <= k < |WebSpec[j].pattern.alternatives| ==>
           IsName(WebSpec[j].pattern.alternatives[k]) && WebSpec[j].pattern.alternatives[k] in WebBoundedKeywords
  {
  }

  lemma WebPrefixShape()
    ensures forall j :: 17 <= j < 25 ==>
      && WebSpec[j].pattern.Words?
      && forall k :: 0 <= k < |WebSpec[j].pattern.alternatives| ==> WebSpec[j].pattern.alternatives[k] in WebPrefixKeywords
  {
  }

  lemma {:induction false} WebBoundedRules(rest: string)
    requires rest[..Span(rest, 0, IsWordChar)] !in WebBoundedKeywords
    ensures forall j :: 15 <= j < 17 ==> MatchLen(WebSpec[j].pattern, rest).None?
  {
    WebBoundedShape();
    forall j | 15 <= j < 17
      ensures MatchLen(WebSpec[j].pattern, rest).None?
    {
      WordsWholeRun(WebSpec[j].pattern.alternatives, rest);
    }
  }

  lemma {:induction false} WebPrefixRules(rest: string)
    requires forall w :: w in WebPrefixKeywords ==> !(w <= rest)
    ensures forall j :: 17 <= j < 25 ==> MatchLen(WebSpec[j].pattern, rest).None?
  {
    WebPrefixShape();
    forall j | 17 <= j < 25
      ensures MatchLen(WebSpec[j].pattern, rest).None?
    {
      WordsNoPrefix(WebSpec[j].pattern.alternatives, WebSpec[j].pattern.boundary, rest);
    }
  }

  lemma {:induction false} WebWordPasses(s: string, cursor: nat)
    requires cursor < |s| && IsWordChar(s[cursor]) && !IsDigit(s[cursor])
    requires s[cursor..Span(s, cursor, IsWordChar)] !in WebBoundedKeywords
    requires forall w :: w in WebPrefixKeywords ==> !(w <= s[cursor..])
    ensures FirstMatchFrom(WebSpec, s[cursor..], 0) == FirstMatchFrom(WebSpec, s[cursor..], 34)
  {
    var rest := s[cursor..];
    SpanShift(s, cursor, cursor, IsWordChar);
    assert rest[..Span(rest, 0, IsWordChar)] == s[cursor..Span(s, cursor, IsWordChar)];
    WebStartsLetter(rest[0]);
    PassStart(WebSpec, rest, 0, 15);
    WebBoundedRules(rest);
    Pass(WebSpec, rest, 15, 17);
    WebPrefixRules(rest);
    Pass(WebSpec, rest, 17, 25);
    WebStartsLetterLater(rest[0]);
    PassStart(WebSpec, rest, 25, 34);
  }

  /** In parser-web/, a run of word characters starting with a letter, which is
      not `true`, `false` or `null` and does not start with a keyword, is an
      IDENTIFIER covering the whole run: `nullable`, `trueish` and `class`
      among them. */
  lemma {:induction false} WebIdentifier(s: string, cursor: nat)
    requires cursor < |s| && IsWordChar(s[cursor]) && !IsDigit(s[cursor])
    requires s[cursor..Span(s, cursor, IsWordChar)] !in WebBoundedKeywords
    requires forall w :: w in WebPrefixKeywords ==> !(w <= s[cursor..])
    ensures var e := Span(s, cursor, IsWordChar);
      GetNextToken(WebSpec, s, cursor) == Ok(Some((Token(IDENTIFIER, s[cursor..e]), e)))
  {
    WebWordPasses(s, cursor);
    WordRun(WebSpec, s, cursor, 34);
  }

  lemma WebStartsDeclaration(c: char)
    requires c == 'l' || c == 'v' || c == 'c'
    ensures NoneStart(WebSpec, c, 15, 17)
  {
  }

  /** The declaration keywords lack a trailing `\b`: `variable` starts with the
      DECLARATION token `var`. */
  lemma {:induction false} WebDeclarationPrefix(s: string, cursor: nat, w: string)
    requires w in ["let", "var", "const"] && cursor <= |s| && w <= s[cursor..]
    ensures GetNextToken(WebSpec, s, cursor) == Ok(Some((Token(DECLARATION, w), cursor + |w|)))
  {
    var rest := s[cursor..];
    assert rest[0] == w[0];
    WebStartsLetter(rest[0]);
    PassStart(WebSpec, rest, 0, 15);
    WebStartsDeclaration(rest[0]);
    PassStart(WebSpec, rest, 15, 17);
    assert WebSpec[17].pattern == Words(["let", "var", "const"], false);
    if w == "let" {
      assert MatchWords(["let", "var", "const"], false, rest) == Some(3);
    } else if w == "var" {
      assert !("let" <= rest);
      assert MatchWords(["let", "var", "const"], false, rest) == Some(3);
    } else {
      assert !("let" <= rest) && !("var" <= rest);
      assert ["let", "var", "const"][1..] == ["var", "const"] && ["var", "const"][1..] == ["const"];
      assert MatchWords(["var", "const"], false, rest) == MatchWords(["const"], false, rest) == Some(5);
    }
    Hit(WebSpec, s, cursor, 17, |w|);
    assert s[cursor..cursor + |w|] == rest[..|w|] == w;
  }

  lemma WebStartsI() ensures NoneStart(WebSpec, 'i', 15, 18) { }

  /** `if` lacks a trailing `\b`: `iffy` starts with the token `if`. */
  lemma {:induction false} WebIfPrefix(s: string, cursor: nat)
    requires cursor <= |s| && "if" <= s[cursor..]
    ensures GetNextToken(WebSpec, s, cursor) == Ok(Some((Token(KwIf, "if"), cursor + 2)))
  {
    var rest := s[cursor..];
    assert rest[0] == 'i';
    WebStartsLetter('i');
    PassStart(WebSpec, rest, 0, 15);
    WebStartsI();
    PassStart(WebSpec, rest, 15, 18);
    assert MatchLen(WebSpec[18].pattern, rest) == Some(2);
    Hit(WebSpec, s, cursor, 18, 2);
    assert s[cursor..cursor + 2] == rest[..2] == "if";
  }

  lemma WebStartsF() ensures NoneStart(WebSpec, 'f', 16, 21) { }

  lemma {:induction false} WebForPasses(rest: string)
    requires "for" <= rest
    ensures FirstMatchFrom(WebSpec, rest, 0) == FirstMatchFrom(WebSpec, rest, 21)
  {
    assert rest[0] == 'f' && rest[1] == 'o';
    WebStartsLetter('f');
    PassStart(WebSpec, rest, 0, 15);
    assert !("false" <= rest) && !("true" <= rest);
    assert MatchLen(WebSpec[15].pattern, rest).None?;
    Pass(WebSpec, rest, 15, 16);
    WebStartsF();
    PassStart(WebSpec, rest, 16, 21);
  }

  /** `for` lacks a trailing `\b`: `format` starts with the token `for`. */
  lemma {:induction false} WebForPrefix(s: string, cursor: nat)
    requires cursor <= |s| && "for" <= s[cursor..]
    ensures GetNextToken(WebSpec, s, cursor) == Ok(Some((Token(KwFor, "for"), cursor + 3)))
  {
    var rest := s[cursor..];
    WebForPasses(rest);
    assert MatchLen(WebSpec[21].pattern, rest) == Some(3);
    Hit(WebSpec, s, cursor, 21, 3);
    assert s[cursor..cursor + 3] == rest[..3] == "for";
  }
  /** The token kind of each prefix keyword, in the order of `WebPrefixKeywords`. */
  const WebPrefixKinds: seq<Kind> :=
    [DECLARATION, DECLARATION, DECLARATION, KwIf, KwElse, KwWhile, KwFor, KwFunction, KwReturn, KwThis]

  /** Rules 18-24 are the prefix keywords after the declarations, in order,
      each a bare literal. */
  lemma WebPrefixRule(k: nat)
    requires 3 <= k < |WebPrefixKeywords|
    ensures WebSpec[15 + k] == Punct(WebPrefixKeywords[k], WebPrefixKinds[k])
  {
  }

  /** A keyword of rules 18-24 starts with a letter and diverges from `true`,
      `false`, `null` and every keyword in the rules before its own. */
  lemma WebPrefixAvoids(k: nat)
    requires 3 <= k < |WebPrefixKeywords|
    ensures var w := WebPrefixKeywords[k];
      IsWordChar(w[0]) && !IsDigit(w[0]) && WordsAvoid(WebSpec, 15, 15 + k, w)
  {
    var w := WebPrefixKeywords[k];
    if k == 3 { assert w == "if"; }
    else if k == 4 { assert w == "else"; }
    else if k == 5 { assert w == "while"; }
    else if k == 6 { assert w == "for"; }
    else if k == 7 { assert w == "function"; }
    else if k == 8 { assert w == "return"; }
    else { assert w == "this"; }
  }

  /** No keyword of the web table but `true`, `false` and `null` has a trailing
      `\b`: wherever a word starts with one of them, that keyword is the next
      token and the rest of the word is lexed after it, so `letter` is `let`
      then `ter`, `elsewhere` is `else` then `where` and `format` is `for`
      then `mat`. */
  lemma {:induction false} WebKeywordPrefix(s: string, cursor: nat, k: nat)
    requires cursor <= |s| && k < |WebPrefixKeywords| && WebPrefixKeywords[k] <= s[cursor..]
    ensures var w := WebPrefixKeywords[k];
      GetNextToken(WebSpec, s, cursor) == Ok(Some((Token(WebPrefixKinds[k], w), cursor + |w|)))
  {
    if k < 3 {
      WebDeclarationPrefix(s, cursor, WebPrefixKeywords[k]);
    } else {
      WebKeywordPasses(s[cursor..], k);
      WebPrefixRule(k);
      LiteralHit(WebSpec, s, cursor, 15 + k, WebPrefixKeywords[k], WebPrefixKinds[k]);
    }
  }

  /** Text that starts with a keyword of rules 18-24 passes over every rule
      before that keyword's own. */
  lemma {:induction false} WebKeywordPasses(rest: string, k: nat)
    requires 3 <= k < |WebPrefixKeywords| && WebPrefixKeywords[k] <= rest
    ensures FirstMatchFrom(WebSpec, rest, 0) == FirstMatchFrom(WebSpec, rest, 15 + k)
  {
    var w := WebPrefixKeywords[k];
    WebPrefixAvoids(k);
    assert rest[0] == w[0];
    WebStartsLetter(rest[0]);
    PassStart(WebSpec, rest, 0, 15);
    AvoidPass(WebSpec, rest, 15, 15 + k, w);
  }
}
