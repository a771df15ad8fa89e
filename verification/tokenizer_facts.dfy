/** What `getNextToken` and the eager tokenization promise, for any rule table and
    for the two concrete tables. */
module TokenizerFacts {
  import opened Wrappers
  import opened Chars
  import opened Tokens
  import opened Patterns
  import opened Rules
  import opened Tokenizer

  // ---------------------------------------------------------------------------
  // Any table: skipping, determinism and the tiling characterization

  /** A skip lexeme at `at` is consumed and scanning goes on after it. */
  lemma SkipStep(table: seq<Rule>, s: string, at: nat, n: nat)
    requires at <= |s| && SkipsAt(table, s, at, n)
    ensures at + n <= |s|
    ensures GetNextToken(table, s, at) == GetNextToken(table, s, at + n)
  {
    FirstMatchSpec(table, s[at..], 0);
  }

  /** A run of skip lexemes changes nothing: `getNextToken` from its start behaves
      as from its end (the `return this.getNextToken()` recursion). */
  lemma {:induction false} SkipsAdvance(table: seq<Rule>, s: string, from: nat, to: nat)
    requires from <= to <= |s| && Skips(table, s, from, to)
    ensures GetNextToken(table, s, from) == GetNextToken(table, s, to)
    decreases (to as int) - (from as int)
  {
    if from < to {
      var n :| 0 < n <= to - from && SkipsAt(table, s, from, n) && Skips(table, s, from + n, to);
      SkipStep(table, s, from, n);
      SkipsAdvance(table, s, from + n, to);
    }
  }

  /** `getNextToken` returns `null` exactly when only whitespace and comments
      remain; in particular at the end of the input. */
  lemma EndOfInput(table: seq<Rule>, s: string, cursor: nat)
    requires cursor <= |s|
    ensures GetNextToken(table, s, cursor) == Ok(None) <==> Skips(table, s, cursor, |s|)
  {
    GetNextTokenSpec(table, s, cursor);
    if Skips(table, s, cursor, |s|) {
      SkipsAdvance(table, s, cursor, |s|);
    }
  }

  /** Where the first matching rule produces `t`, `getNextToken` returns `t` and
      moves the cursor past exactly its lexeme. */
  lemma ProducesNext(table: seq<Rule>, s: string, at: nat, t: Token)
    requires at <= |s| && ProducesAt(table, s, at, t)
    ensures at + |t.text| <= |s|
    ensures GetNextToken(table, s, at) == Ok(Some((t, at + |t.text|)))
  {
    var rest := s[at..];
    FirstMatchSpec(table, rest, 0);
    var Some((i, n)) := FirstMatch(table, rest);
    assert |t.text| == n && at < |s|;
    assert rest[..n] == s[at..at + n];
  }

  /** `getNextToken` is determined by the skip run and the token after it. */
  lemma NextAfterSkips(table: seq<Rule>, s: string, cursor: nat, t: Token, after: nat)
    requires cursor <= |s| && TokenAfterSkips(table, s, cursor, t, after)
    ensures GetNextToken(table, s, cursor) == Ok(Some((t, after)))
  {
    var start := after - |t.text|;
    SkipsAdvance(table, s, cursor, start);
    ProducesNext(table, s, start, t);
  }

  /** At the end of a tiling only skip lexemes remain and the loop stops. */
  lemma TokenizeEnd(table: seq<Rule>, s: string, cursor: nat)
    requires cursor <= |s| && Skips(table, s, cursor, |s|)
    ensures TokenizeFrom(table, s, cursor) == Ok([])
  {
    SkipsAdvance(table, s, cursor, |s|);
  }

  /** Tokenization yields no token exactly when the text from the start on is
      whitespace and comments. */
  lemma NoTokens(table: seq<Rule>, s: string)
    ensures TokenizeFrom(table, s, 0) == Ok([]) <==> Skips(table, s, 0, |s|)
  {
    EndOfInput(table, s, 0);
    GetNextTokenSpec(table, s, 0);
  }

  /** One step of the eager loop: the token after the skip run heads the rest. */
  lemma TokenizeStep(table: seq<Rule>, s: string, cursor: nat, t: Token, after: nat, ts: seq<Token>)
    requires cursor <= |s| && TokenAfterSkips(table, s, cursor, t, after)
    requires after <= |s| && TokenizeFrom(table, s, after) == Ok(ts)
    ensures TokenizeFrom(table, s, cursor) == Ok([t] + ts)
  {
    NextAfterSkips(table, s, cursor, t, after);
  }

  /** A non-empty tiling starts with a token after a skip run. */
  lemma TilesHead(table: seq<Rule>, s: string, cursor: nat, ts: seq<Token>) returns (after: nat)
    requires cursor <= |s| && |ts| > 0 && Tiles(table, s, cursor, ts)
    ensures cursor < after <= |s| && TokenAfterSkips(table, s, cursor, ts[0], after) && Tiles(table, s, after, ts[1..])
  {
    after :| TokenAfterSkips(table, s, cursor, ts[0], after) && Tiles(table, s, after, ts[1..]);
  }

  /** Only the token sequence that tiles the input is produced. */
  lemma {:induction false} TilesTokenize(table: seq<Rule>, s: string, cursor: nat, ts: seq<Token>)
    requires cursor <= |s| && Tiles(table, s, cursor, ts)
    ensures TokenizeFrom(table, s, cursor) == Ok(ts)
    decreases |ts|
  {
    if |ts| == 0 {
      TokenizeEnd(table, s, cursor);
    } else {
      var after := TilesHead(table, s, cursor, ts);
      TilesTokenize(table, s, after, ts[1..]);
      TokenizeStep(table, s, cursor, ts[0], after, ts[1..]);
      assert [ts[0]] + ts[1..] == ts;
    }
  }

  /** The tokenization of `s` is the one token sequence that tiles it. */
  lemma TokenizeTiles(table: seq<Rule>, s: string, ts: seq<Token>)
    ensures TokenizeFrom(table, s, 0) == Ok(ts) <==> Tiles(table, s, 0, ts)
  {
    TokenizeFromSpec(table, s, 0);
    if Tiles(table, s, 0, ts) {
      TilesTokenize(table, s, 0, ts);
    }
  }

  /** `t` is what the first matching rule produces somewhere in `s`. */
  ghost predicate Produced(table: seq<Rule>, s: string, t: Token) {
    exists at: nat :: at <= |s| && ProducesAt(table, s, at, t)
  }

  /** Every token of a successful tokenization is produced by the first rule that
      matches where it starts. */
  lemma {:induction false} TokenizeFromProduced(table: seq<Rule>, s: string, cursor: nat)
    requires cursor <= |s|
    ensures TokenizeFrom(table, s, cursor).Ok? ==>
      forall k :: 0 <= k < |TokenizeFrom(table, s, cursor).value| ==> Produced(table, s, TokenizeFrom(table, s, cursor).value[k])
    decreases |s| - cursor
  {
    GetNextTokenSpec(table, s, cursor);
    match GetNextToken(table, s, cursor) {
      case Err(_) =>
      case Ok(None) =>
      case Ok(Some((t, after))) =>
        assert ProducesAt(table, s, after - |t.text|, t);
        TokenizeFromProduced(table, s, after);
    }
  }

  // ---------------------------------------------------------------------------
  // Lexeme shapes

  /** The lexeme of `k` that `op` produces after the character `c`: `[c]`, then
      `=` when `eq`, then one more `=` when `extra`. */
  function OperatorLexeme(c: char, eq: bool, extra: bool): string {
    if eq && extra then [c, '=', '=']
    else if eq || extra then [c, '=']
    else [c]
  }

  /** Every lexeme the rule can match is a valid lexeme of its kind. */
  predicate RuleSound(r: Rule) {
    match r.kind
    case None => true
    case Some(k) =>
      match r.pattern
      case Words(alternatives, _) => forall j :: 0 <= j < |alternatives| ==> ValidToken(Token(k, alternatives[j]))
      case Digits => k == NUMBER
      case Quoted(q) => k == STRING && (q == '"' || q == '\'')
      case Operator(lead, eq, optionalEq) =>
        forall c :: c in lead ==>
          && ValidToken(Token(k, OperatorLexeme(c, eq, false)))
          && (optionalEq ==> ValidToken(Token(k, OperatorLexeme(c, eq, true))))
      case Word => k == IDENTIFIER
      case _ => false
  }

  predicate TableSound(table: seq<Rule>) {
    forall i :: 0 <= i < |table| ==> RuleSound(table[i])
  }

  // The tables are checked a few rules at a time: evaluating `ValidToken` on a
  // lexeme costs the solver more than the resource limit allows for many at once.
  lemma SrcSound0() ensures forall i :: 0 <= i < 3 ==> RuleSound(SrcSpec[i]) { }
  lemma SrcSound3() ensures forall i :: 3 <= i < 12 ==> RuleSound(SrcSpec[i]) { }
  lemma SrcSound12() ensures forall i :: 12 <= i < 13 ==> RuleSound(SrcSpec[i]) { }
  lemma SrcSound13() ensures forall i :: 13 <= i < 14 ==> RuleSound(SrcSpec[i]) { }
  lemma SrcSound14() ensures forall i :: 14 <= i < 15 ==> RuleSound(SrcSpec[i]) { }
  lemma SrcSound15() ensures forall i :: 15 <= i < 16 ==> RuleSound(SrcSpec[i]) { }
  lemma SrcSound16() ensures forall i :: 16 <= i < 17 ==> RuleSound(SrcSpec[i]) { }
  lemma SrcSound17() ensures forall i :: 17 <= i < 18 ==> RuleSound(SrcSpec[i]) { }
  lemma SrcSound18() ensures forall i :: 18 <= i < 19 ==> RuleSound(SrcSpec[i]) { }
  lemma SrcSound19() ensures forall i :: 19 <= i < 22 ==> RuleSound(SrcSpec[i]) { }
  lemma SrcSound22() ensures forall i :: 22 <= i < 24 ==> RuleSound(SrcSpec[i]) { }
  lemma SrcSound24() ensures forall i :: 24 <= i < 26 ==> RuleSound(SrcSpec[i]) { }
  lemma SrcSound26() ensures forall i :: 26 <= i < 28 ==> RuleSound(SrcSpec[i]) { }
  lemma SrcSound28() ensures forall i :: 28 <= i < 29 ==> RuleSound(SrcSpec[i]) { }
  lemma SrcSound29() ensures forall i :: 29 <= i < 31 ==> RuleSound(SrcSpec[i]) { }
  lemma SrcSound31() ensures forall i :: 31 <= i < 32 ==> RuleSound(SrcSpec[i]) { }
  lemma SrcSound32() ensures forall i :: 32 <= i < 33 ==> RuleSound(SrcSpec[i]) { }
  lemma SrcSound33() ensures forall i :: 33 <= i < 34 ==> RuleSound(SrcSpec[i]) { }
  lemma SrcSound34() ensures forall i :: 34 <= i < 35 ==> RuleSound(SrcSpec[i]) { }
  lemma SrcSound35() ensures forall i :: 35 <= i < 36 ==> RuleSound(SrcSpec[i]) { }
  lemma SrcSound36() ensures forall i :: 36 <= i < 37 ==> RuleSound(SrcSpec[i]) { }
  lemma SrcSound37() ensures forall i :: 37 <= i < 38 ==> RuleSound(SrcSpec[i]) { }
  lemma SrcSound38() ensures forall i :: 38 <= i < 39 ==> RuleSound(SrcSpec[i]) { }

  lemma SrcSound()
    ensures TableSound(SrcSpec)
  {
    SrcSound0(); SrcSound3(); SrcSound12(); SrcSound13(); SrcSound14(); SrcSound15();
    SrcSound16(); SrcSound17(); SrcSound18(); SrcSound19(); SrcSound22(); SrcSound24();
    SrcSound26(); SrcSound28(); SrcSound29(); SrcSound31(); SrcSound32(); SrcSound33();
    SrcSound34(); SrcSound35(); SrcSound36(); SrcSound37(); SrcSound38();
  }

  lemma WebSound0() ensures forall i :: 0 <= i < 9 ==> RuleSound(WebSpec[i]) { }
  lemma WebSound9() ensures forall i :: 9 <= i < 12 ==> RuleSound(WebSpec[i]) { }
  lemma WebSound12() ensures forall i :: 12 <= i < 15 ==> RuleSound(WebSpec[i]) { }
  lemma WebSound15() ensures forall i :: 15 <= i < 16 ==> RuleSound(WebSpec[i]) { }
  lemma WebSound16() ensures forall i :: 16 <= i < 17 ==> RuleSound(WebSpec[i]) { }
  lemma WebSound17() ensures forall i :: 17 <= i < 18 ==> RuleSound(WebSpec[i]) { }
  lemma WebSound18() ensures forall i :: 18 <= i < 19 ==> RuleSound(WebSpec[i]) { }
  lemma WebSound19() ensures forall i :: 19 <= i < 20 ==> RuleSound(WebSpec[i]) { }
  lemma WebSound20() ensures forall i :: 20 <= i < 21 ==> RuleSound(WebSpec[i]) { }
  lemma WebSound21() ensures forall i :: 21 <= i < 22 ==> RuleSound(WebSpec[i]) { }
  lemma WebSound22() ensures forall i :: 22 <= i < 23 ==> RuleSound(WebSpec[i]) { }
  lemma WebSound23() ensures forall i :: 23 <= i < 24 ==> RuleSound(WebSpec[i]) { }
  lemma WebSound24() ensures forall i :: 24 <= i < 25 ==> RuleSound(WebSpec[i]) { }
  lemma WebSound25() ensures forall i :: 25 <= i < 27 ==> RuleSound(WebSpec[i]) { }
  lemma WebSound27() ensures forall i :: 27 <= i < 30 ==> RuleSound(WebSpec[i]) { }
  lemma WebSound30() ensures forall i :: 30 <= i < 31 ==> RuleSound(WebSpec[i]) { }
  lemma WebSound31() ensures forall i :: 31 <= i < 33 ==> RuleSound(WebSpec[i]) { }
  lemma WebSound33() ensures forall i :: 33 <= i < 35 ==> RuleSound(WebSpec[i]) { }

  lemma WebSound()
    ensures TableSound(WebSpec)
  {
    WebSound0(); WebSound9(); WebSound12(); WebSound15(); WebSound16(); WebSound17();
    WebSound18(); WebSound19(); WebSound20(); WebSound21(); WebSound22(); WebSound23();
    WebSound24(); WebSound25(); WebSound27(); WebSound30(); WebSound31(); WebSound33();
  }

  lemma TablesSound(d: Dialect)
    ensures TableSound(Table(d))
  {
    match d {
      case Src => SrcSound();
      case Web => WebSound();
    }
  }

  /** What a sound rule matches is a valid token of its kind: digits for NUMBER,
      a lexeme with the same quote at both ends and none inside for STRING, and so
      on. */
  lemma MatchSound(r: Rule, s: string, n: nat)
    requires RuleSound(r) && r.kind.Some? && MatchLen(r.pattern, s) == Some(n)
    ensures ValidToken(Token(r.kind.value, s[..n]))
  {
    var k := r.kind.value;
    var w := s[..n];
    match r.pattern {
      case Words(alternatives, _) =>
      case Digits =>
        assert forall i :: 0 <= i < |w| ==> w[i] == s[i];
      case Quoted(q) =>
        var j := IndexOf(s, q, 1).value;
        assert n == j + 1;
        assert w[1..|w| - 1] == s[1..j];
        assert forall c :: c in s[1..j] ==> c != q;
      case Operator(lead, eq, optionalEq) =>
        var extra := optionalEq && (if eq then 2 else 1) < |s| && s[if eq then 2 else 1] == '=';
        assert w == OperatorLexeme(s[0], eq, extra);
      case Word =>
        assert forall i :: 0 <= i < |w| ==> w[i] == s[i];
    }
  }

  /** A token `getNextToken` would produce is valid. */
  lemma ProducesValid(table: seq<Rule>, s: string, at: nat, t: Token)
    requires TableSound(table) && at <= |s| && ProducesAt(table, s, at, t)
    ensures ValidToken(t)
  {
    FirstMatchSpec(table, s[at..], 0);
    var Some((i, n)) := FirstMatch(table, s[at..]);
    MatchSound(table[i], s[at..], n);
    assert s[at..][..n] == s[at..at + n];
  }

  lemma {:induction false} TokenizeFromValid(table: seq<Rule>, s: string, cursor: nat)
    requires TableSound(table) && cursor <= |s|
    ensures TokenizeFrom(table, s, cursor).Ok? ==> AllValid(TokenizeFrom(table, s, cursor).value)
    decreases |s| - cursor
  {
    GetNextTokenSpec(table, s, cursor);
    match GetNextToken(table, s, cursor) {
      case Err(_) =>
      case Ok(None) =>
      case Ok(Some((t, after))) =>
        ProducesValid(table, s, after - |t.text|, t);
        TokenizeFromValid(table, s, after);
    }
  }

  /** Every token of a successful tokenization is one the rule tables can produce
      for its kind. */
  lemma TokenizeValid(d: Dialect, s: string)
    ensures Tokenize(d, s).Ok? ==> AllValid(Tokenize(d, s).value)
  {
    TablesSound(d);
    TokenizeFromValid(Table(d), s, 0);
  }
}
