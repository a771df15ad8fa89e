/** The regular expressions of the two rule tables, as prefix matchers. Every
    expression in the tables is anchored with `^` and applied to the unconsumed
    rest of the input, so a matcher returns the length of the match at the start
    of `s`, or `None`. */
module Patterns {
  import opened Wrappers
  import opened Chars

  datatype Pattern =
    | Spaces                                        // ^\s+
    | LineComment                                   // ^\/\/.*
    | BlockComment                                  // ^\/\*[\s\S]*?\*\/
    | Words(alternatives: seq<string>, boundary: bool)
        // ^(let|var|const), ^;, ^return, ... ; with `boundary`, a trailing \b
    | Digits                                        // ^\d+
    | Quoted(quote: char)                           // ^"[^"]*?" and ^'[^']*'
    | Operator(lead: seq<char>, eq: bool, optionalEq: bool)
        // ^[lead], then `=` when `eq`, then `=?` when `optionalEq`
    | Word                                          // ^\w+

  /** The end of the longest run of characters satisfying `p` that starts at `i`:
      what a greedy `x+` or `x*` loop consumes. */
  function Span(s: string, i: nat, p: char -> bool): (n: nat)
    requires i <= |s|
    ensures i <= n <= |s|
    ensures forall k :: i <= k < n ==> p(s[k])
    ensures n == |s| || !p(s[n])
    decreases |s| - i
  {
    if i < |s| && p(s[i]) then Span(s, i + 1, p) else i
  }

  predicate NotLineTerminator(c: char) {
    !IsLineTerminator(c)
  }

  predicate ClosesComment(s: string, k: nat)
    requires k + 1 < |s|
  {
    s[k] == '*' && s[k + 1] == '/'
  }

  /** The first `*` `/` pair at or after `i`: where a lazy `[\s\S]*?\*\/` stops. */
  function FindCommentEnd(s: string, i: nat): (r: Option<nat>)
    requires i <= |s|
    ensures r.Some? ==> i <= r.value && r.value + 1 < |s| && ClosesComment(s, r.value)
    ensures r.Some? ==> forall k :: i <= k < r.value ==> !ClosesComment(s, k)
    ensures r.None? ==> forall k :: i <= k && k + 1 < |s| ==> !ClosesComment(s, k)
    decreases |s| - i
  {
    if i + 1 >= |s| then None
    else if ClosesComment(s, i) then Some(i)
    else FindCommentEnd(s, i + 1)
  }

  /** The first occurrence of `c` at or after `i`. */
  function IndexOf(s: string, c: char, i: nat): (r: Option<nat>)
    requires i <= |s|
    ensures r.Some? ==> i <= r.value < |s| && s[r.value] == c
    ensures r.Some? ==> forall k :: i <= k < r.value ==> s[k] != c
    ensures r.None? ==> forall k :: i <= k < |s| ==> s[k] != c
    decreases |s| - i
  {
    if i == |s| then None
    else if s[i] == c then Some(i)
    else IndexOf(s, c, i + 1)
  }

  /** JavaScript's `\b` at offset `k` of the (already sliced) string `s`: exactly one
      of the characters around `k` is a word character. At offset 0 only the
      following character counts, because the source matches against the rest of
      the input, not the whole of it. */
  predicate Boundary(s: string, k: nat) {
    (0 < k <= |s| && IsWordChar(s[k - 1])) != (k < |s| && IsWordChar(s[k]))
  }

  /** An alternation of literal words, tried in order as the regex engine does
      (backtracking into the next alternative when a trailing `\b` fails). No
      table has an empty alternative; one would be skipped here. */
  function MatchWords(alternatives: seq<string>, boundary: bool, s: string): (r: Option<nat>)
    ensures r.Some? ==> 0 < r.value <= |s| && s[..r.value] in alternatives
    ensures r.Some? && boundary ==> Boundary(s, r.value)
  {
    if |alternatives| == 0 then None
    else
      var w := alternatives[0];
      if 0 < |w| && w <= s && (!boundary || Boundary(s, |w|)) then
        assert s[..|w|] == w == alternatives[0];
        Some(|w|)
      else MatchWords(alternatives[1..], boundary, s)
  }

  /** Alternative `w` matches at the start of `s`: it is non-empty, a prefix
      of `s`, and followed by a word boundary when the rule asks for one. */
  predicate WordFits(w: string, boundary: bool, s: string) {
    0 < |w| && w <= s && (!boundary || Boundary(s, |w|))
  }

  /** The alternation finds nothing exactly when no alternative fits, and
      otherwise the length of the first alternative that fits. */
  lemma {:induction false} MatchWordsSpec(alternatives: seq<string>, boundary: bool, s: string)
    ensures MatchWords(alternatives, boundary, s).None?
        <==> forall j :: 0 <= j < |alternatives| ==> !WordFits(alternatives[j], boundary, s)
    ensures MatchWords(alternatives, boundary, s).Some? ==>
      exists j :: 0 <= j < |alternatives| && WordFits(alternatives[j], boundary, s)
        && MatchWords(alternatives, boundary, s).value == |alternatives[j]|
        && forall k :: 0 <= k < j ==> !WordFits(alternatives[k], boundary, s)
    decreases |alternatives|
  {
    if |alternatives| > 0 && !WordFits(alternatives[0], boundary, s) {
      var rest := alternatives[1..];
      MatchWordsSpec(rest, boundary, s);
      assert forall j :: 0 < j < |alternatives| ==> alternatives[j] == rest[j - 1];
      if MatchWords(rest, boundary, s).Some? {
        var j :| 0 <= j < |rest| && WordFits(rest[j], boundary, s)
          && MatchWords(rest, boundary, s).value == |rest[j]|
          && forall k :: 0 <= k < j ==> !WordFits(rest[k], boundary, s);
        assert WordFits(alternatives[j + 1], boundary, s);
      }
    }
  }

  function NonEmpty(n: nat): (r: Option<nat>)
    ensures r.Some? <==> n > 0
    ensures r.Some? ==> r.value == n
  {
    if n == 0 then None else Some(n)
  }

  /** Length of the match of `p` at the start of `s`. */
  function MatchLen(p: Pattern, s: string): (r: Option<nat>)
    ensures r.Some? ==> 0 < r.value <= |s|
  {
    match p
    case Spaces => NonEmpty(Span(s, 0, IsSpace))
    case LineComment =>
      if "//" <= s then Some(Span(s, 2, NotLineTerminator)) else None
    case BlockComment =>
      if "/*" <= s then
        match FindCommentEnd(s, 2)
        case Some(k) => Some(k + 2)
        case None => None
      else None
    case Words(alternatives, boundary) => MatchWords(alternatives, boundary, s)
    case Digits => NonEmpty(Span(s, 0, IsDigit))
    case Quoted(q) =>
      if |s| > 0 && s[0] == q then
        match IndexOf(s, q, 1)
        case Some(k) => Some(k + 1)
        case None => None
      else None
    case Operator(lead, eq, optionalEq) =>
      var k := if eq then 2 else 1;
      if |s| == 0 || s[0] !in lead then None
      else if eq && !(|s| >= 2 && s[1] == '=') then None
      else if optionalEq && k < |s| && s[k] == '=' then Some(k + 1)
      else Some(k)
    case Word => NonEmpty(Span(s, 0, IsWordChar))
  }

  /** Some alternative starts with `c`. */
  predicate SomeStartsWith(alternatives: seq<string>, c: char)
    decreases |alternatives|
  {
    |alternatives| > 0 &&
      ((|alternatives[0]| > 0 && alternatives[0][0] == c) || SomeStartsWith(alternatives[1..], c))
  }

  /** A necessary condition on the first character for `p` to match. */
  predicate CanStart(p: Pattern, c: char) {
    match p
    case Spaces => IsSpace(c)
    case LineComment => c == '/'
    case BlockComment => c == '/'
    case Words(alternatives, _) => SomeStartsWith(alternatives, c)
    case Digits => IsDigit(c)
    case Quoted(q) => c == q
    case Operator(lead, _, _) => c in lead
    case Word => IsWordChar(c)
  }

  lemma {:induction false} MatchWordsStartsWith(alternatives: seq<string>, boundary: bool, s: string)
    requires MatchWords(alternatives, boundary, s).Some?
    ensures SomeStartsWith(alternatives, s[0])
    decreases |alternatives|
  {
    var w := alternatives[0];
    if !(0 < |w| && w <= s && (!boundary || Boundary(s, |w|))) {
      MatchWordsStartsWith(alternatives[1..], boundary, s);
    }
  }

  /** A match starts with a character the pattern can start with. */
  lemma MatchStartsWith(p: Pattern, s: string)
    requires MatchLen(p, s).Some?
    ensures CanStart(p, s[0])
  {
    match p
    case Words(alternatives, boundary) => MatchWordsStartsWith(alternatives, boundary, s);
    case _ =>
  }
}
