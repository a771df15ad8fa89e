/** `Tokenizer.getNextToken` of both front ends over a rule table, and the eager
    tokenization the parser consumes. */
module Tokenizer {
  import opened Wrappers
  import opened Tokens
  import opened Patterns
  import opened Rules

  /** The first rule at index `i` or later that matches at the start of `s`, with
      its match length: the `for ... of Spec` loop with its `continue`. */
  function FirstMatchFrom(table: seq<Rule>, s: string, i: nat): (r: Option<(nat, nat)>)
    requires i <= |table|
    ensures r.Some? ==> i <= r.value.0 < |table|
    decreases |table| - i, 1, |s|
  {
    if i == |table| then None else FirstMatchAt(table, s, i, MatchLen(table[i].pattern, s))
  }

  /** One turn of that loop, given what rule `i`'s expression matched. */
  function FirstMatchAt(table: seq<Rule>, s: string, i: nat, m: Option<nat>): (r: Option<(nat, nat)>)
    requires i < |table|
    ensures r.Some? ==> i <= r.value.0 < |table|
    decreases |table| - i, 0, |s|
  {
    match m
    case Some(n) => Some((i, n))
    case None => FirstMatchFrom(table, s, i + 1)
  }

  /** The rule found matches with the length returned, and no rule before it
      matches; when none is found, no rule from `i` on matches. */
  lemma {:induction false} FirstMatchSpec(table: seq<Rule>, s: string, i: nat)
    requires i <= |table|
    ensures FirstMatchFrom(table, s, i).Some? ==>
      MatchLen(table[FirstMatchFrom(table, s, i).value.0].pattern, s) == Some(FirstMatchFrom(table, s, i).value.1)
    ensures FirstMatchFrom(table, s, i).Some? ==>
      forall j :: i <= j < FirstMatchFrom(table, s, i).value.0 ==> MatchLen(table[j].pattern, s).None?
    ensures FirstMatchFrom(table, s, i).None? ==> forall j :: i <= j < |table| ==> MatchLen(table[j].pattern, s).None?
    decreases |table| - i
  {
    if i < |table| && MatchLen(table[i].pattern, s).None? {
      assert FirstMatchFrom(table, s, i) == FirstMatchFrom(table, s, i + 1);
      FirstMatchSpec(table, s, i + 1);
    }
  }

  function FirstMatch(table: seq<Rule>, s: string): Option<(nat, nat)> {
    FirstMatchFrom(table, s, 0)
  }

  /** The first rule matching at offset `at` is a skip rule; `n` is its length. */
  predicate SkipsAt(table: seq<Rule>, s: string, at: nat, n: nat)
    requires at <= |s|
  {
    match FirstMatch(table, s[at..])
    case Some((i, len)) => len == n && table[i].kind.None?
    case None => false
  }

  /** `s[from..to]` is a run of skip lexemes (whitespace and comments). */
  ghost predicate Skips(table: seq<Rule>, s: string, from: nat, to: nat)
    requires from <= to <= |s|
    decreases (to as int) - (from as int)
  {
    from == to ||
      exists n :: 0 < n <= to - from && SkipsAt(table, s, from, n) && Skips(table, s, from + n, to)
  }

  lemma SkipsEmpty(table: seq<Rule>, s: string, at: nat)
    requires at <= |s|
    ensures Skips(table, s, at, at)
  {
  }

  /** A skip lexeme followed by a run of skip lexemes is a run of skip lexemes. */
  lemma SkipsPrepend(table: seq<Rule>, s: string, from: nat, n: nat)
    requires 0 < n && from + n <= |s| && SkipsAt(table, s, from, n)
    ensures forall to :: from + n <= to <= |s| && Skips(table, s, from + n, to) ==> Skips(table, s, from, to)
  {
  }

  /** The first rule matching at offset `at` produces `t`: it has a kind, that kind
      is `t.kind`, and `t.text` is exactly its match. */
  predicate ProducesAt(table: seq<Rule>, s: string, at: nat, t: Token)
    requires at <= |s|
  {
    match FirstMatch(table, s[at..])
    case Some((i, n)) => table[i].kind == Some(t.kind) && at + n <= |s| && t.text == s[at..at + n]
    case None => false
  }

  /** `t` ends at `after`, and between `cursor` and its start there are only skip
      lexemes. */
  ghost predicate TokenAfterSkips(table: seq<Rule>, s: string, cursor: nat, t: Token, after: nat)
    requires cursor <= |s|
  {
    && cursor < after <= |s|
    && 0 < |t.text| <= after - cursor
    && Skips(table, s, cursor, after - |t.text|)
    && ProducesAt(table, s, after - |t.text|, t)
  }

  /** Scanning from `cursor` gets stuck at `e.at`: only skip lexemes before it, no
      rule matches there, and the error names the character there. */
  ghost predicate StuckAfterSkips(table: seq<Rule>, s: string, cursor: nat, e: Error)
    requires cursor <= |s|
  {
    && e.LexError?
    && cursor <= e.at < |s|
    && e.ch == s[e.at]
    && Skips(table, s, cursor, e.at)
    && FirstMatch(table, s[e.at..]).None?
  }

  /** `getNextToken` from `cursor`: `None` is the source's `null` (end of input);
      otherwise the token and the cursor after it. A skip rule's match advances
      the cursor and scanning recurses. */
  function GetNextToken(table: seq<Rule>, s: string, cursor: nat): (r: Result<Option<(Token, nat)>, Error>)
    requires cursor <= |s|
    ensures cursor == |s| ==> r == Ok(None)
    decreases |s| - cursor
  {
    if cursor == |s| then Ok(None)
    else
      var rest := s[cursor..];
      FirstMatchSpec(table, rest, 0);
      match FirstMatch(table, rest)
      case None => Err(LexError(cursor, s[cursor]))
      case Some((i, n)) =>
        if table[i].kind.None? then GetNextToken(table, s, cursor + n)
        else Ok(Some((Token(table[i].kind.value, rest[..n]), cursor + n)))
  }

  /** What `getNextToken` returns: `null` only after nothing but skip lexemes; a
      token only as the first-match lexeme after a run of skip lexemes; an error
      only where, after skip lexemes, no rule matches, naming the character
      there. */
  lemma {:induction false} GetNextTokenSpec(table: seq<Rule>, s: string, cursor: nat)
    requires cursor <= |s|
    ensures GetNextToken(table, s, cursor) == Ok(None) ==> Skips(table, s, cursor, |s|)
    ensures GetNextToken(table, s, cursor).Ok? && GetNextToken(table, s, cursor).value.Some? ==>
      TokenAfterSkips(table, s, cursor, GetNextToken(table, s, cursor).value.value.0, GetNextToken(table, s, cursor).value.value.1)
    ensures GetNextToken(table, s, cursor).Err? ==> StuckAfterSkips(table, s, cursor, GetNextToken(table, s, cursor).error)
    decreases |s| - cursor
  {
    SkipsEmpty(table, s, cursor);
    if cursor < |s| {
      var rest := s[cursor..];
      FirstMatchSpec(table, rest, 0);
      match FirstMatch(table, rest) {
        case None =>
        case Some((i, n)) =>
          if table[i].kind.None? {
            assert SkipsAt(table, s, cursor, n);
            SkipsPrepend(table, s, cursor, n);
            GetNextTokenSpec(table, s, cursor + n);
          } else {
            var t := Token(table[i].kind.value, rest[..n]);
            assert rest[..n] == s[cursor..cursor + n];
            assert ProducesAt(table, s, cursor, t);
          }
      }
    }
  }

  /** `ts` tiles `s[cursor..]`: each token follows a run of skip lexemes and is the
      first-match lexeme where that run ends, and after the last token only skip
      lexemes remain. */
  ghost predicate Tiles(table: seq<Rule>, s: string, cursor: nat, ts: seq<Token>)
    requires cursor <= |s|
    decreases |ts|
  {
    if |ts| == 0 then Skips(table, s, cursor, |s|)
    else exists after :: TokenAfterSkips(table, s, cursor, ts[0], after) && Tiles(table, s, after, ts[1..])
  }

  /** All tokens from `cursor` on, fetched one `getNextToken` call at a time. */
  function TokenizeFrom(table: seq<Rule>, s: string, cursor: nat): (r: Result<seq<Token>, Error>)
    requires cursor <= |s|
    decreases |s| - cursor
  {
    GetNextTokenSpec(table, s, cursor);
    var next :- GetNextToken(table, s, cursor);
    match next
    case None => Ok([])
    case Some((t, after)) =>
      var rest :- TokenizeFrom(table, s, after);
      Ok([t] + rest)
  }

  /** A successful tokenization tiles the input; a failed one names a character
      of it. */
  lemma {:induction false} TokenizeFromSpec(table: seq<Rule>, s: string, cursor: nat)
    requires cursor <= |s|
    ensures TokenizeFrom(table, s, cursor).Ok? ==> Tiles(table, s, cursor, TokenizeFrom(table, s, cursor).value)
    ensures TokenizeFrom(table, s, cursor).Err? ==>
      var e := TokenizeFrom(table, s, cursor).error;
      e.LexError? && cursor <= e.at < |s| && e.ch == s[e.at]
    decreases |s| - cursor
  {
    GetNextTokenSpec(table, s, cursor);
    match GetNextToken(table, s, cursor) {
      case Err(_) =>
      case Ok(None) =>
      case Ok(Some((t, after))) =>
        TokenizeFromSpec(table, s, after);
        if TokenizeFrom(table, s, after).Ok? {
          var rest := TokenizeFrom(table, s, after).value;
          assert ([t] + rest)[1..] == rest;
        }
    }
  }

  function Tokenize(d: Dialect, s: string): Result<seq<Token>, Error> {
    TokenizeFrom(Table(d), s, 0)
  }
}
