/** Consequences of the order of the two rule tables: which rule wins on a given
    lexeme, and which tokens a later rule can never produce because an earlier one
    always matches first. */
module RuleOrder {
  import opened Wrappers
  import opened Chars
  import opened Tokens
  import opened Patterns
  import opened Rules
  import opened Tokenizer
  import opened TokenizerFacts

  // ---------------------------------------------------------------------------
  // Any table

  /** No rule in `table[lo..hi]` can match a lexeme starting with `c`. */
  predicate NoneStart(table: seq<Rule>, c: char, lo: nat, hi: nat)
    requires lo <= hi <= |table|
  {
    forall j :: lo <= j < hi ==> !CanStart(table[j].pattern, c)
  }

  /** The rules that cannot start with the first character do not match. */
  lemma {:induction false} NoneMatch(table: seq<Rule>, s: string, lo: nat, hi: nat)
    requires lo <= hi <= |table| && |s| > 0 && NoneStart(table, s[0], lo, hi)
    ensures forall j :: lo <= j < hi ==> MatchLen(table[j].pattern, s).None?
  {
    forall j | lo <= j < hi
      ensures MatchLen(table[j].pattern, s).None?
    {
      if MatchLen(table[j].pattern, s).Some? {
        MatchStartsWith(table[j].pattern, s);
      }
    }
  }

  lemma {:induction false} FirstMatchFromIs(table: seq<Rule>, s: string, k: nat, i: nat, n: nat)
    requires k <= i < |table| && MatchLen(table[i].pattern, s) == Some(n)
    requires forall j :: k <= j < i ==> MatchLen(table[j].pattern, s).None?
    ensures FirstMatchFrom(table, s, k) == Some((i, n))
    decreases i - k
  {
    if k < i {
      FirstMatchFromIs(table, s, k + 1, i, n);
    }
  }

  /** Rules `lo` to `hi - 1` do not match: the search passes over them. */
  lemma {:induction false} Pass(table: seq<Rule>, s: string, lo: nat, hi: nat)
    requires lo <= hi <= |table|
    requires forall j :: lo <= j < hi ==> MatchLen(table[j].pattern, s).None?
    ensures FirstMatchFrom(table, s, lo) == FirstMatchFrom(table, s, hi)
    decreases hi - lo
  {
    if lo < hi {
      assert FirstMatchFrom(table, s, lo) == FirstMatchFrom(table, s, lo + 1);
      Pass(table, s, lo + 1, hi);
    }
  }

  /** The search has reached rule `i`, which matches, and it has a kind:
      `getNextToken` returns its lexeme with that kind. */
  lemma {:induction false} Hit(table: seq<Rule>, s: string, cursor: nat, i: nat, n: nat)
    requires cursor <= |s| && i < |table| && table[i].kind.Some?
    requires MatchLen(table[i].pattern, s[cursor..]) == Some(n)
    requires FirstMatch(table, s[cursor..]) == FirstMatchFrom(table, s[cursor..], i)
    ensures cursor + n <= |s|
    ensures GetNextToken(table, s, cursor) == Ok(Some((Token(table[i].kind.value, s[cursor..cursor + n]), cursor + n)))
  {
    var rest := s[cursor..];
    assert FirstMatchFrom(table, rest, i) == Some((i, n));
    assert rest[..n] == s[cursor..cursor + n];
  }

  /** The search has reached rule `i`, the bare literal `w`, and the input at the
      cursor starts with `w`: `getNextToken` returns `w` with the rule's kind. */
  lemma {:induction false} LiteralHit(table: seq<Rule>, s: string, cursor: nat, i: nat, w: string, k: Kind)
    requires cursor <= |s| && i < |table| && table[i] == Punct(w, k) && 0 < |w| && w <= s[cursor..]
    requires FirstMatch(table, s[cursor..]) == FirstMatchFrom(table, s[cursor..], i)
    ensures GetNextToken(table, s, cursor) == Ok(Some((Token(k, w), cursor + |w|)))
  {
    var rest := s[cursor..];
    assert MatchLen(table[i].pattern, rest) == Some(|w|);
    Hit(table, s, cursor, i, |w|);
    assert s[cursor..cursor + |w|] == rest[..|w|] == w;
  }

  /** The search has reached the whitespace rule at `i` on a space: scanning
      goes on after the whole run of spaces. */
  lemma {:induction false} SpacesSkip(table: seq<Rule>, s: string, cursor: nat, i: nat)
    requires cursor < |s| && IsSpace(s[cursor]) && i < |table| && table[i] == Rule(Spaces, None)
    requires FirstMatch(table, s[cursor..]) == FirstMatchFrom(table, s[cursor..], i)
    ensures GetNextToken(table, s, cursor) == GetNextToken(table, s, Span(s, cursor, IsSpace))
  {
    var rest := s[cursor..];
    SpanShift(s, cursor, cursor, IsSpace);
    assert MatchLen(table[i].pattern, rest) == Some(Span(s, cursor, IsSpace) - cursor);
    SkipHit(table, s, cursor, i, Span(s, cursor, IsSpace) - cursor);
  }

  /** The search has reached the line-comment rule at `i` on `//`: scanning
      goes on at the end of the line. */
  lemma {:induction false} LineCommentSkip(table: seq<Rule>, s: string, cursor: nat, i: nat)
    requires cursor + 2 <= |s| && s[cursor] == '/' && s[cursor + 1] == '/'
    requires i < |table| && table[i] == Rule(LineComment, None)
    requires FirstMatch(table, s[cursor..]) == FirstMatchFrom(table, s[cursor..], i)
    ensures GetNextToken(table, s, cursor) == GetNextToken(table, s, Span(s, cursor + 2, NotLineTerminator))
  {
    var rest := s[cursor..];
    var e := Span(s, cursor + 2, NotLineTerminator);
    SpanShift(s, cursor, cursor + 2, NotLineTerminator);
    assert "//" <= rest;
    assert MatchLen(table[i].pattern, rest) == Some(e - cursor);
    SkipHit(table, s, cursor, i, e - cursor);
  }

  /** The search has reached the block-comment rule at `i` on `/` `*`, and `close`
      is the first `*` `/` after the opener: scanning goes on after it. */
  lemma {:induction false} BlockCommentSkip(table: seq<Rule>, s: string, cursor: nat, close: nat, i: nat)
    requires cursor + 2 <= close && close + 1 < |s| && s[cursor] == '/' && s[cursor + 1] == '*'
    requires s[close] == '*' && s[close + 1] == '/'
    requires forall k :: cursor + 2 <= k < close ==> !(s[k] == '*' && s[k + 1] == '/')
    requires i < |table| && table[i] == Rule(BlockComment, None)
    requires FirstMatch(table, s[cursor..]) == FirstMatchFrom(table, s[cursor..], i)
    ensures GetNextToken(table, s, cursor) == GetNextToken(table, s, close + 2)
  {
    var rest := s[cursor..];
    CommentEndShift(s, cursor, close);
    assert "/*" <= rest;
    assert MatchLen(table[i].pattern, rest) == Some(close + 2 - cursor);
    SkipHit(table, s, cursor, i, close + 2 - cursor);
  }

  /** No rule in `table[lo..hi]` can start with the first character of `s`: the
      search passes over them. */
  lemma {:induction false} PassStart(table: seq<Rule>, s: string, lo: nat, hi: nat)
    requires lo <= hi <= |table| && |s| > 0 && NoneStart(table, s[0], lo, hi)
    ensures FirstMatchFrom(table, s, lo) == FirstMatchFrom(table, s, hi)
  {
    NoneMatch(table, s, lo, hi);
    Pass(table, s, lo, hi);
  }

  /** The search has reached skip rule `i`, which matches: `getNextToken` goes on
      after its match. */
  lemma {:induction false} SkipHit(table: seq<Rule>, s: string, cursor: nat, i: nat, n: nat)
    requires cursor <= |s| && i < |table| && table[i].kind.None?
    requires MatchLen(table[i].pattern, s[cursor..]) == Some(n)
    requires FirstMatch(table, s[cursor..]) == FirstMatchFrom(table, s[cursor..], i)
    ensures cursor + n <= |s|
    ensures GetNextToken(table, s, cursor) == GetNextToken(table, s, cursor + n)
  {
    assert FirstMatchFrom(table, s[cursor..], i) == Some((i, n));
  }

  /** The search has passed every rule: `getNextToken` fails naming the character
      at the cursor. */
  lemma {:induction false} StuckAt(table: seq<Rule>, s: string, cursor: nat)
    requires cursor < |s|
    requires FirstMatch(table, s[cursor..]) == FirstMatchFrom(table, s[cursor..], |table|)
    ensures GetNextToken(table, s, cursor) == Err(LexError(cursor, s[cursor]))
  {
  }

  /** The search has reached the `Word` rule at `i` on a word character: the
      whole run of word characters is one IDENTIFIER. */
  lemma {:induction false} WordRun(table: seq<Rule>, s: string, cursor: nat, i: nat)
    requires cursor < |s| && IsWordChar(s[cursor])
    requires i < |table| && table[i] == Rule(Word, Some(IDENTIFIER))
    requires FirstMatch(table, s[cursor..]) == FirstMatchFrom(table, s[cursor..], i)
    ensures var e := Span(s, cursor, IsWordChar);
      GetNextToken(table, s, cursor) == Ok(Some((Token(IDENTIFIER, s[cursor..e]), e)))
  {
    var e := Span(s, cursor, IsWordChar);
    SpanShift(s, cursor, cursor, IsWordChar);
    assert Span(s[cursor..], 0, IsWordChar) == e - cursor > 0;
    Hit(table, s, cursor, i, e - cursor);
  }

  /** Rule `i` is the first to match at `cursor`, and it has a kind: `getNextToken`
      returns its lexeme with that kind. */
  lemma {:induction false} Wins(table: seq<Rule>, s: string, cursor: nat, i: nat, n: nat)
    requires cursor <= |s| && i < |table| && table[i].kind.Some?
    requires MatchLen(table[i].pattern, s[cursor..]) == Some(n)
    requires forall j :: 0 <= j < i ==> MatchLen(table[j].pattern, s[cursor..]).None?
    ensures cursor + n <= |s|
    ensures GetNextToken(table, s, cursor) == Ok(Some((Token(table[i].kind.value, s[cursor..cursor + n]), cursor + n)))
  {
    var rest := s[cursor..];
    FirstMatchFromIs(table, rest, 0, i, n);
    assert rest[..n] == s[cursor..cursor + n];
  }

  /** Rule `i` is the first to match at `cursor`, and it is a skip rule:
      `getNextToken` goes on after its match. */
  lemma {:induction false} Skipped(table: seq<Rule>, s: string, cursor: nat, i: nat, n: nat)
    requires cursor <= |s| && i < |table| && table[i].kind.None?
    requires MatchLen(table[i].pattern, s[cursor..]) == Some(n)
    requires forall j :: 0 <= j < i ==> MatchLen(table[j].pattern, s[cursor..]).None?
    ensures cursor + n <= |s|
    ensures GetNextToken(table, s, cursor) == GetNextToken(table, s, cursor + n)
  {
    FirstMatchFromIs(table, s[cursor..], 0, i, n);
  }

  /** No rule matches at `cursor`: `getNextToken` fails naming the character there. */
  lemma {:induction false} Stuck(table: seq<Rule>, s: string, cursor: nat)
    requires cursor < |s|
    requires forall j :: 0 <= j < |table| ==> MatchLen(table[j].pattern, s[cursor..]).None?
    ensures GetNextToken(table, s, cursor) == Err(LexError(cursor, s[cursor]))
  {
    FirstMatchSpec(table, s[cursor..], 0);
  }

  /** No alternative is a prefix of `s`: the alternation fails. */
  lemma {:induction false} WordsNoPrefix(alternatives: seq<string>, boundary: bool, s: string)
    requires forall j :: 0 <= j < |alternatives| ==> !(alternatives[j] <= s)
    ensures MatchWords(alternatives, boundary, s).None?
    decreases |alternatives|
  {
    if |alternatives| > 0 {
      assert forall j :: 0 <= j < |alternatives| - 1 ==> alternatives[1..][j] == alternatives[j + 1];
      WordsNoPrefix(alternatives[1..], boundary, s);
    }
  }

  /** `a` and `w` part within their first two characters, so no text starts
      with both. */
  predicate Diverge(a: string, w: string) {
    |a| >= 2 && |w| >= 2 && (a[0] != w[0] || a[1] != w[1])
  }

  /** Rules `lo` to `hi - 1` are word alternations whose alternatives all
      diverge from `w`. */
  predicate WordsAvoid(table: seq<Rule>, lo: nat, hi: nat, w: string)
    requires lo <= hi <= |table|
  {
    forall j :: lo <= j < hi ==>
      && table[j].pattern.Words?
      && forall k :: 0 <= k < |table[j].pattern.alternatives| ==> Diverge(table[j].pattern.alternatives[k], w)
  }

  /** Text that starts with `w` passes over word rules whose alternatives all
      diverge from `w`. */
  lemma {:induction false} AvoidPass(table: seq<Rule>, rest: string, lo: nat, hi: nat, w: string)
    requires lo <= hi <= |table| && w <= rest && WordsAvoid(table, lo, hi, w)
    ensures FirstMatchFrom(table, rest, lo) == FirstMatchFrom(table, rest, hi)
  {
    forall j | lo <= j < hi
      ensures MatchLen(table[j].pattern, rest).None?
    {
      var alternatives := table[j].pattern.alternatives;
      forall k | 0 <= k < |alternatives|
        ensures !(alternatives[k] <= rest)
      {
        assert Diverge(alternatives[k], w);
      }
      WordsNoPrefix(alternatives, table[j].pattern.boundary, rest);
    }
    Pass(table, rest, lo, hi);
  }

  /** With the trailing `\b`, a word alternation matches only a whole run of word
      characters: if no alternative is the run at the start of `s`, it fails. */
  lemma {:induction false} WordsWholeRun(alternatives: seq<string>, s: string)
    requires forall j :: 0 <= j < |alternatives| ==> IsName(alternatives[j])
    requires forall j :: 0 <= j < |alternatives| ==> alternatives[j] != s[..Span(s, 0, IsWordChar)]
    ensures MatchWords(alternatives, true, s).None?
    decreases |alternatives|
  {
    if |alternatives| > 0 {
      assert forall j :: 0 <= j < |alternatives| - 1 ==> alternatives[1..][j] == alternatives[j + 1];
      WordsWholeRun(alternatives[1..], s);
    }
  }

  /** The run of `p` characters from `i` in a suffix is the same run, shifted. */
  lemma {:induction false} SpanShift(s: string, cursor: nat, i: nat, p: char -> bool)
    requires cursor <= i <= |s|
    ensures Span(s[cursor..], i - cursor, p) == Span(s, i, p) - cursor
    decreases |s| - i
  {
    if i < |s| && p(s[i]) {
      SpanShift(s, cursor, i + 1, p);
    }
  }

  /** The first `*` `/` after a block comment opener, located in the whole input,
      is where the lazy match on the rest of the input stops. */
  lemma CommentEndShift(s: string, cursor: nat, close: nat)
    requires cursor + 2 <= close && close + 1 < |s|
    requires s[close] == '*' && s[close + 1] == '/'
    requires forall k :: cursor + 2 <= k < close ==> !(s[k] == '*' && s[k + 1] == '/')
    ensures FindCommentEnd(s[cursor..], 2) == Some(close - cursor)
  {
    var rest := s[cursor..];
    assert ClosesComment(rest, close - cursor);
  }

  // ---------------------------------------------------------------------------
  // src/tokenizer.js

  // Which rules of the source table can start with a given character. Each is
  // a separate lemma: the solver evaluates the table one index at a time.
  lemma SrcStartsAdditive(c: char) requires c == '+' || c == '-' ensures NoneStart(SrcSpec, c, 0, 22) { }
  lemma SrcStartsStar() ensures NoneStart(SrcSpec, '*', 0, 23) { }
  lemma SrcStartsSlash() ensures NoneStart(SrcSpec, '/', 3, 23) { }
  lemma SrcStartsRelational(c: char) requires c == '<' || c == '>' ensures NoneStart(SrcSpec, c, 0, 24) { }
  lemma SrcStartsBang() ensures NoneStart(SrcSpec, '!', 0, 27) { }
  lemma SrcStartsEquals() ensures NoneStart(SrcSpec, '=', 0, 28) { }

  /** `+` and `-` are always ADDITIVE_OPERATOR on their own: `x+=1` lexes as
      `x`, `+`, `=`, `1`. */
  lemma {:induction false} SrcAdditive(s: string, cursor: nat)
    requires cursor < |s| && (s[cursor] == '+' || s[cursor] == '-')
    ensures GetNextToken(SrcSpec, s, cursor) == Ok(Some((Token(ADDITIVE_OPERATOR, [s[cursor]]), cursor + 1)))
  {
    var rest := s[cursor..];
    SrcStartsAdditive(s[cursor]);
    NoneMatch(SrcSpec, rest, 0, 22);
    Wins(SrcSpec, s, cursor, 22, 1);
    assert s[cursor..cursor + 1] == [s[cursor]];
  }

  /** `*` is always MULTIPLICATIVE_OPERATOR on its own, so `*=` is `*` then `=`. */
  lemma {:induction false} SrcStar(s: string, cursor: nat)
    requires cursor < |s| && s[cursor] == '*'
    ensures GetNextToken(SrcSpec, s, cursor) == Ok(Some((Token(MULTIPLICATIVE_OPERATOR, "*"), cursor + 1)))
  {
    SrcStartsStar();
    NoneMatch(SrcSpec, s[cursor..], 0, 23);
    Wins(SrcSpec, s, cursor, 23, 1);
    assert s[cursor..cursor + 1] == "*";
  }

  /** An unterminated block comment opener is not a comment: its slash lexes as
      the division operator. */
  lemma {:induction false} SrcUnterminatedComment(s: string, cursor: nat)
    requires cursor + 2 <= |s| && s[cursor] == '/' && s[cursor + 1] == '*'
    requires forall k :: cursor + 2 <= k && k + 1 < |s| ==> !(s[k] == '*' && s[k + 1] == '/')
    ensures GetNextToken(SrcSpec, s, cursor) == Ok(Some((Token(MULTIPLICATIVE_OPERATOR, "/"), cursor + 1)))
  {
    var rest := s[cursor..];
    assert FindCommentEnd(rest, 2).None?;
    assert MatchLen(Spaces, rest).None? && MatchLen(LineComment, rest).None? && MatchLen(BlockComment, rest).None?;
    assert SrcSpec[0].pattern == Spaces && SrcSpec[1].pattern == LineComment && SrcSpec[2].pattern == BlockComment;
    SrcStartsSlash();
    NoneMatch(SrcSpec, rest, 3, 23);
    Wins(SrcSpec, s, cursor, 23, 1);
    assert s[cursor..cursor + 1] == "/";
  }

  /** A `<` or `>` not followed by `=` is one RELATIONAL_OPERATOR token ... */
  lemma {:induction false} SrcRelational(s: string, cursor: nat)
    requires cursor < |s| && (s[cursor] == '<' || s[cursor] == '>')
    requires !(cursor + 1 < |s| && s[cursor + 1] == '=')
    ensures GetNextToken(SrcSpec, s, cursor) == Ok(Some((Token(RELATIONAL_OPERATOR, [s[cursor]]), cursor + 1)))
  {
    SrcStartsRelational(s[cursor]);
    NoneMatch(SrcSpec, s[cursor..], 0, 24);
    Wins(SrcSpec, s, cursor, 24, 1);
    assert s[cursor..cursor + 1] == [s[cursor]];
  }

  /** ... and so are `<=` and `>=`. */
  lemma {:induction false} SrcRelationalEq(s: string, cursor: nat)
    requires cursor + 1 < |s| && (s[cursor] == '<' || s[cursor] == '>') && s[cursor + 1] == '='
    ensures GetNextToken(SrcSpec, s, cursor) == Ok(Some((Token(RELATIONAL_OPERATOR, [s[cursor], '=']), cursor + 2)))
  {
    SrcStartsRelational(s[cursor]);
    NoneMatch(SrcSpec, s[cursor..], 0, 24);
    Wins(SrcSpec, s, cursor, 24, 2);
    assert s[cursor..cursor + 2] == [s[cursor], '='];
  }

  /** `!` is always LOGICAL_NOT on its own: its rule precedes the equality rule,
      so `!=` lexes as `!` then `=`. */
  lemma {:induction false} SrcBang(s: string, cursor: nat)
    requires cursor < |s| && s[cursor] == '!'
    ensures GetNextToken(SrcSpec, s, cursor) == Ok(Some((Token(LOGICAL_NOT, "!"), cursor + 1)))
  {
    SrcStartsBang();
    NoneMatch(SrcSpec, s[cursor..], 0, 27);
    Wins(SrcSpec, s, cursor, 27, 1);
    assert s[cursor..cursor + 1] == "!";
  }

  /** An `=` not followed by `=` is SIMPLE_ASSIGN ... */
  lemma {:induction false} SrcAssign(s: string, cursor: nat)
    requires cursor < |s| && s[cursor] == '=' && !(cursor + 1 < |s| && s[cursor + 1] == '=')
    ensures GetNextToken(SrcSpec, s, cursor) == Ok(Some((Token(SIMPLE_ASSIGN, "="), cursor + 1)))
  {
    var rest := s[cursor..];
    SrcStartsEquals();
    NoneMatch(SrcSpec, rest, 0, 28);
    assert MatchLen(SrcSpec[28].pattern, rest).None?;
    Wins(SrcSpec, s, cursor, 29, 1);
    assert s[cursor..cursor + 1] == "=";
  }

  /** ... `==` not followed by `=` is EQUALITY_OPERATOR ... */
  lemma {:induction false} SrcEquality(s: string, cursor: nat)
    requires cursor + 1 < |s| && s[cursor] == '=' && s[cursor + 1] == '=' && !(cursor + 2 < |s| && s[cursor + 2] == '=')
    ensures GetNextToken(SrcSpec, s, cursor) == Ok(Some((Token(EQUALITY_OPERATOR, "=="), cursor + 2)))
  {
    SrcStartsEquals();
    NoneMatch(SrcSpec, s[cursor..], 0, 28);
    Wins(SrcSpec, s, cursor, 28, 2);
    assert s[cursor..cursor + 2] == "==";
  }

  /** ... and so is `===`. */
  lemma {:induction false} SrcStrictEquality(s: string, cursor: nat)
    requires cursor + 2 < |s| && s[cursor] == '=' && s[cursor + 1] == '=' && s[cursor + 2] == '='
    ensures GetNextToken(SrcSpec, s, cursor) == Ok(Some((Token(EQUALITY_OPERATOR, "==="), cursor + 3)))
  {
    SrcStartsEquals();
    NoneMatch(SrcSpec, s[cursor..], 0, 28);
    Wins(SrcSpec, s, cursor, 28, 3);
    assert s[cursor..cursor + 3] == "===";
  }

  lemma SrcComplexAssignRule(i: nat)
    requires i < |SrcSpec| && SrcSpec[i].kind == Some(COMPLEX_ASSIGN)
    ensures i == 30
  {
  }

  lemma {:induction false} SrcSingleOperator(rest: string)
    requires |rest| > 0 && rest[0] in "*/+-"
    ensures MatchLen(SrcSpec[22].pattern, rest).Some? || MatchLen(SrcSpec[23].pattern, rest).Some?
  {
  }

  /** COMPLEX_ASSIGN is never produced: the rules for `+`, `-`, `*` and `/` on their
      own come first and match wherever the `+=`, `-=`, `*=`, `/=` rule would. */
  lemma {:induction false} SrcNoComplexAssignAt(s: string, at: nat, t: Token)
    requires at <= |s| && ProducesAt(SrcSpec, s, at, t)
    ensures t.kind != COMPLEX_ASSIGN
  {
    var rest := s[at..];
    FirstMatchSpec(SrcSpec, rest, 0);
    var Some((i, n)) := FirstMatch(SrcSpec, rest);
    if t.kind == COMPLEX_ASSIGN {
      SrcComplexAssignRule(i);
      MatchStartsWith(SrcSpec[30].pattern, rest);
      SrcSingleOperator(rest);
    }
  }

  /** No tokenization of the source table holds a COMPLEX_ASSIGN token. */
  lemma {:induction false} SrcNoComplexAssign(s: string)
    ensures Tokenize(Src, s).Ok? ==> forall k :: 0 <= k < |Tokenize(Src, s).value| ==> Tokenize(Src, s).value[k].kind != COMPLEX_ASSIGN
  {
    TokenizeFromProduced(SrcSpec, s, 0);
    if Tokenize(Src, s).Ok? {
      var ts := Tokenize(Src, s).value;
      forall k | 0 <= k < |ts|
        ensures ts[k].kind != COMPLEX_ASSIGN
      {
        var at: nat :| at <= |s| && ProducesAt(SrcSpec, s, at, ts[k]);
        SrcNoComplexAssignAt(s, at, ts[k]);
      }
    }
  }

  /** The words the source table marks with a trailing `\b`, and those it does
      not. */
  const SrcBoundedKeywords: seq<string> := ["let", "var", "const", "if", "while", "else", "true", "false", "null"]
  const SrcPrefixKeywords: seq<string> := ["return", "function", "class", "extends", "new", "super", "this"]

  lemma SrcStartsLetter(c: char)
    requires IsWordChar(c) && !IsDigit(c)
    ensures NoneStart(SrcSpec, c, 0, 12)
  {
  }

  lemma SrcStartsLetterLater(c: char)
    requires IsWordChar(c) && !IsDigit(c)
    ensures NoneStart(SrcSpec, c, 19, 31)
  {
  }

  /** Rules 12-18 of the source table are word alternations with a trailing `\b`
      over the bounded keywords; rules 31-37 are single keywords without it. */
  lemma SrcBoundedShape()
    ensures forall j :: 12 <= j < 19 ==>
      && SrcSpec[j].pattern.Words? && SrcSpec[j].pattern.boundary
      && forall k :: 0 <= k < |SrcSpec[j].pattern.alternatives| ==>
           IsName(SrcSpec[j].pattern.alternatives[k]) && SrcSpec[j].pattern.alternatives[k] in SrcBoundedKeywords
  {
  }

  lemma SrcPrefixShape()
    ensures forall j :: 31 <= j < 38 ==>
      && SrcSpec[j].pattern.Words?
      && forall k :: 0 <= k < |SrcSpec[j].pattern.alternatives| ==> SrcSpec[j].pattern.alternatives[k] in SrcPrefixKeywords
  {
  }

  lemma {:induction false} SrcBoundedRules(rest: string)
    requires rest[..Span(rest, 0, IsWordChar)] !in SrcBoundedKeywords
    ensures forall j :: 12 <= j < 19 ==> MatchLen(SrcSpec[j].pattern, rest).None?
  {
    SrcBoundedShape();
    forall j | 12 <= j < 19
      ensures MatchLen(SrcSpec[j].pattern, rest).None?
    {
      WordsWholeRun(SrcSpec[j].pattern.alternatives, rest);
    }
  }

  lemma {:induction false} SrcPrefixRules(rest: string)
    requires forall w :: w in SrcPrefixKeywords ==> !(w <= rest)
    ensures forall j :: 31 <= j < 38 ==> MatchLen(SrcSpec[j].pattern, rest).None?
  {
    SrcPrefixShape();
    forall j | 31 <= j < 38
      ensures MatchLen(SrcSpec[j].pattern, rest).None?
    {
      WordsNoPrefix(SrcSpec[j].pattern.alternatives, SrcSpec[j].pattern.boundary, rest);
    }
  }

  /** A word that starts with a letter and is not a bounded keyword passes
      over rules 0 to 18. */
  lemma {:induction false} SrcWordPassesLow(s: string, cursor: nat)
    requires cursor < |s| && IsWordChar(s[cursor]) && !IsDigit(s[cursor])
    requires s[cursor..Span(s, cursor, IsWordChar)] !in SrcBoundedKeywords
    ensures FirstMatchFrom(SrcSpec, s[cursor..], 0) == FirstMatchFrom(SrcSpec, s[cursor..], 19)
  {
    var rest := s[cursor..];
    SpanShift(s, cursor, cursor, IsWordChar);
    assert rest[..Span(rest, 0, IsWordChar)] == s[cursor..Span(s, cursor, IsWordChar)];
    SrcStartsLetter(rest[0]);
    NoneMatch(SrcSpec, rest, 0, 12);
    Pass(SrcSpec, rest, 0, 12);
    SrcBoundedRules(rest);
    Pass(SrcSpec, rest, 12, 19);
  }

  /** A word that starts with a letter and has no prefix keyword passes over
      rules 19 to 37, which leaves the `Word` rule. */
  lemma {:induction false} SrcWordPassesHigh(rest: string)
    requires |rest| > 0 && IsWordChar(rest[0]) && !IsDigit(rest[0])
    requires forall w :: w in SrcPrefixKeywords ==> !(w <= rest)
    ensures FirstMatchFrom(SrcSpec, rest, 19) == FirstMatchFrom(SrcSpec, rest, 38)
  {
    SrcStartsLetterLater(rest[0]);
    NoneMatch(SrcSpec, rest, 19, 31);
    Pass(SrcSpec, rest, 19, 31);
    SrcPrefixRules(rest);
    Pass(SrcSpec, rest, 31, 38);
  }

  /** In src/, a run of word characters starting with a letter, which is not
      one of the bounded keywords and does not start with a prefix keyword, is
      an IDENTIFIER covering the whole run. */
  lemma {:induction false} SrcIdentifier(s: string, cursor: nat)
    requires cursor < |s| && IsWordChar(s[cursor]) && !IsDigit(s[cursor])
    requires s[cursor..Span(s, cursor, IsWordChar)] !in SrcBoundedKeywords
    requires forall w :: w in SrcPrefixKeywords ==> !(w <= s[cursor..])
    ensures var e := Span(s, cursor, IsWordChar);
      GetNextToken(SrcSpec, s, cursor) == Ok(Some((Token(IDENTIFIER, s[cursor..e]), e)))
  {
    SrcWordPassesLow(s, cursor);
    SrcWordPassesHigh(s[cursor..]);
    WordRun(SrcSpec, s, cursor, 38);
  }

  /** `return` lacks the trailing `\b`: at the start of `returnx` it is a token of
      its own, and `x` follows as an IDENTIFIER. */
  lemma SrcStartsR() ensures NoneStart(SrcSpec, 'r', 12, 19) { }

  lemma {:induction false} SrcReturnPasses(rest: string)
    requires "return" <= rest
    ensures FirstMatchFrom(SrcSpec, rest, 0) == FirstMatchFrom(SrcSpec, rest, 31)
  {
    assert rest[0] == 'r';
    SrcStartsLetter('r');
    PassStart(SrcSpec, rest, 0, 12);
    SrcStartsR();
    PassStart(SrcSpec, rest, 12, 19);
    SrcStartsLetterLater('r');
    PassStart(SrcSpec, rest, 19, 31);
  }

  lemma {:induction false} SrcReturnPrefix(s: string, cursor: nat)
    requires cursor <= |s| && "return" <= s[cursor..]
    ensures GetNextToken(SrcSpec, s, cursor) == Ok(Some((Token(KwReturn, "return"), cursor + 6)))
  {
    var rest := s[cursor..];
    SrcReturnPasses(rest);
    assert SrcSpec[31] == Punct("return", KwReturn);
    assert MatchLen(SrcSpec[31].pattern, rest) == Some(6);
    Hit(SrcSpec, s, cursor, 31, 6);
    assert s[cursor..cursor + 6] == rest[..6] == "return";
  }

  /** The token kind of each prefix keyword, in the order of `SrcPrefixKeywords`. */
  const SrcPrefixKinds: seq<Kind> := [KwReturn, KwFunction, KwClass, KwExtends, KwNew, KwSuper, KwThis]

  /** Rules 31-37 are the prefix keywords in order, each a bare literal. */
  lemma SrcPrefixRule(k: nat)
    requires k < |SrcPrefixKeywords|
    ensures SrcSpec[31 + k] == Punct(SrcPrefixKeywords[k], SrcPrefixKinds[k])
  {
  }

  /** A prefix keyword starts with a letter and diverges from every bounded
      keyword of rules 12-18. */
  lemma SrcPrefixAvoidsBounded(k: nat)
    requires k < |SrcPrefixKeywords|
    ensures var w := SrcPrefixKeywords[k];
      IsWordChar(w[0]) && !IsDigit(w[0]) && WordsAvoid(SrcSpec, 12, 19, w)
  {
    var w := SrcPrefixKeywords[k];
    if k == 0 { assert w == "return"; }
    else if k == 1 { assert w == "function"; }
    else if k == 2 { assert w == "class"; }
    else if k == 3 { assert w == "extends"; }
    else if k == 4 { assert w == "new"; }
    else if k == 5 { assert w == "super"; }
    else { assert w == "this"; }
  }

  /** A prefix keyword diverges from every prefix keyword before it. */
  lemma SrcPrefixAvoidsEarlier(k: nat)
    requires k < |SrcPrefixKeywords|
    ensures WordsAvoid(SrcSpec, 31, 31 + k, SrcPrefixKeywords[k])
  {
    forall j | 31 <= j < 31 + k
      ensures SrcSpec[j].pattern.Words? && SrcSpec[j].pattern.alternatives == [SrcPrefixKeywords[j - 31]]
    {
      SrcPrefixRule(j - 31);
    }
  }

  /** None of `return function class extends new super this` has a trailing
      `\b` in src/: wherever a word starts with one of them, that keyword is the
      next token and the rest of the word is lexed after it, so `newton` is
      `new` then `ton` and `className` is `class` then `Name`. */
  lemma {:induction false} SrcKeywordPrefix(s: string, cursor: nat, k: nat)
    requires cursor <= |s| && k < |SrcPrefixKeywords| && SrcPrefixKeywords[k] <= s[cursor..]
    ensures var w := SrcPrefixKeywords[k];
      GetNextToken(SrcSpec, s, cursor) == Ok(Some((Token(SrcPrefixKinds[k], w), cursor + |w|)))
  {
    SrcKeywordPasses(s[cursor..], k);
    SrcPrefixRule(k);
    LiteralHit(SrcSpec, s, cursor, 31 + k, SrcPrefixKeywords[k], SrcPrefixKinds[k]);
  }

  /** Text that starts with prefix keyword `k` passes over every rule before
      that keyword's own. */
  lemma {:induction false} SrcKeywordPasses(rest: string, k: nat)
    requires k < |SrcPrefixKeywords| && SrcPrefixKeywords[k] <= rest
    ensures FirstMatchFrom(SrcSpec, rest, 0) == FirstMatchFrom(SrcSpec, rest, 31 + k)
  {
    var w := SrcPrefixKeywords[k];
    SrcPrefixAvoidsBounded(k);
    SrcPrefixAvoidsEarlier(k);
    assert rest[0] == w[0];
    SrcStartsLetter(rest[0]);
    PassStart(SrcSpec, rest, 0, 12);
    AvoidPass(SrcSpec, rest, 12, 19, w);
    SrcStartsLetterLater(rest[0]);
    PassStart(SrcSpec, rest, 19, 31);
    AvoidPass(SrcSpec, rest, 31, 31 + k, w);
  }

  /** No rule of the source table starts with `@`: it is a lexical error there. */
  lemma SrcStartsAtLow() ensures NoneStart(SrcSpec, '@', 0, 20) { }
  lemma SrcStartsAtHigh() ensures NoneStart(SrcSpec, '@', 20, 39) { }

  lemma {:induction false} SrcAtSign(s: string, cursor: nat)
    requires cursor < |s| && s[cursor] == '@'
    ensures GetNextToken(SrcSpec, s, cursor) == Err(LexError(cursor, '@'))
  {
    var rest := s[cursor..];
    SrcStartsAtLow();
    PassStart(SrcSpec, rest, 0, 20);
    SrcStartsAtHigh();
    PassStart(SrcSpec, rest, 20, 39);
    StuckAt(SrcSpec, s, cursor);
  }

  /** A `"` with no closing `"` after it matches no rule: the error names the
      quote. */
  lemma SrcStartsQuoteLow() ensures NoneStart(SrcSpec, '"', 0, 20) { }
  lemma SrcStartsQuoteHigh() ensures NoneStart(SrcSpec, '"', 21, 39) { }

  lemma {:induction false} SrcQuotePasses(rest: string)
    requires |rest| > 0 && rest[0] == '"'
    requires forall k :: 0 < k < |rest| ==> rest[k] != '"'
    ensures FirstMatchFrom(SrcSpec, rest, 0) == FirstMatchFrom(SrcSpec, rest, 39)
  {
    SrcStartsQuoteLow();
    PassStart(SrcSpec, rest, 0, 20);
    assert IndexOf(rest, '"', 1).None?;
    assert MatchLen(SrcSpec[20].pattern, rest).None?;
    Pass(SrcSpec, rest, 20, 21);
    SrcStartsQuoteHigh();
    PassStart(SrcSpec, rest, 21, 39);
  }

  lemma {:induction false} SrcUnterminatedString(s: string, cursor: nat)
    requires cursor < |s| && s[cursor] == '"'
    requires forall k :: cursor < k < |s| ==> s[k] != '"'
    ensures GetNextToken(SrcSpec, s, cursor) == Err(LexError(cursor, '"'))
  {
    var rest := s[cursor..];
    assert forall k :: 0 < k < |rest| ==> rest[k] == s[cursor + k];
    SrcQuotePasses(rest);
    StuckAt(SrcSpec, s, cursor);
  }

  /** Whitespace produces no token: scanning goes on after the whole run. */
  lemma {:induction false} SrcWhitespace(s: string, cursor: nat)
    requires cursor < |s| && IsSpace(s[cursor])
    ensures GetNextToken(SrcSpec, s, cursor) == GetNextToken(SrcSpec, s, Span(s, cursor, IsSpace))
  {
    SpacesSkip(SrcSpec, s, cursor, 0);
  }

  /** A `//` comment produces no token: scanning goes on at the end of the line. */
  lemma {:induction false} SrcLineComment(s: string, cursor: nat)
    requires cursor + 2 <= |s| && s[cursor] == '/' && s[cursor + 1] == '/'
    ensures GetNextToken(SrcSpec, s, cursor) == GetNextToken(SrcSpec, s, Span(s, cursor + 2, NotLineTerminator))
  {
    var rest := s[cursor..];
    assert MatchLen(SrcSpec[0].pattern, rest).None?;
    Pass(SrcSpec, rest, 0, 1);
    LineCommentSkip(SrcSpec, s, cursor, 1);
  }

  /** A closed block comment produces no token: scanning goes on after the first
      `*` `/` that follows the opener. */
  lemma {:induction false} SrcBlockComment(s: string, cursor: nat, close: nat)
    requires cursor + 2 <= close && close + 1 < |s| && s[cursor] == '/' && s[cursor + 1] == '*'
    requires s[close] == '*' && s[close + 1] == '/'
    requires forall k :: cursor + 2 <= k < close ==> !(s[k] == '*' && s[k + 1] == '/')
    ensures GetNextToken(SrcSpec, s, cursor) == GetNextToken(SrcSpec, s, close + 2)
  {
    var rest := s[cursor..];
    assert rest[0] == '/' && rest[1] == '*';
    assert SrcSpec[0].pattern == Spaces && SrcSpec[1].pattern == LineComment;
    assert MatchLen(Spaces, rest).None? && MatchLen(LineComment, rest).None?;
    Pass(SrcSpec, rest, 0, 2);
    BlockCommentSkip(SrcSpec, s, cursor, close, 2);
  }
}
