/** `Parser.parse(string)`: tokenize the source with the dialect's rule table,
    then parse the token sequence as a Program. */
module Frontend {
  import opened Wrappers
  import opened Tokens
  import A = Ast
  import opened Rules
  import opened Tokenizer
  import TokenizerFacts
  import opened Parser

  /** A successful parse is a non-empty, well-formed Program; a lexing failure
      is reported as that failure. */
  function Parse(d: Dialect, source: string): (r: Result<A.Program, Error>)
    ensures r.Ok? ==> |r.value.body| > 0 && A.WfProgram(d, r.value)
    ensures Tokenize(d, source).Err? ==> r == Err(Tokenize(d, source).error)
  {
    TokenizerFacts.TokenizeValid(d, source);
    var ts :- Tokenize(d, source);
    Program(d, ts)
  }

  /** Source text made only of whitespace and comments yields no first token,
      so the first Statement reads the type of a null lookahead and fails. */
  lemma BlankInputFails(d: Dialect, source: string)
    requires Skips(Table(d), source, 0, |source|)
    ensures Parse(d, source) == Err(SyntaxError)
  {
    TokenizerFacts.TokenizeEnd(Table(d), source, 0);
    assert Program(d, []) == Err(SyntaxError);
  }
}
