/** Tokens, token kinds and the two dialects of the front end. */
module Tokens {
  import opened Chars

  /** The two near-duplicate front ends: `Src` is src/tokenizer.js with
      src/parser.js, `Web` is parser-web/spec.js, parser-web/tokenizer.js and
      parser-web/parser.js. */
  datatype Dialect = Src | Web

  /** The union of both rule tables' token types. Upper-case names are the
      source's own type strings; `Kw` names are its lower-case keyword types. */
  datatype Kind =
    | Semicolon | Comma | OpenBrace | CloseBrace | OpenParen | CloseParen
    | OpenBracket | CloseBracket | Dot
    | NUMBER | STRING | IDENTIFIER
    | ADDITIVE_OPERATOR | MULTIPLICATIVE_OPERATOR | RELATIONAL_OPERATOR | EQUALITY_OPERATOR
    | LOGICAL_AND | LOGICAL_OR | LOGICAL_NOT | SIMPLE_ASSIGN | COMPLEX_ASSIGN
      // Src only: `dec`, `true`, `false`, `null`, `class`, `extends`, `new`, `super`
    | KwDec | KwTrue | KwFalse | KwNull | KwClass | KwExtends | KwNew | KwSuper
      // Web only: `DECLARATION`, `BOOLEAN`, `NULL`, `for`
    | DECLARATION | BOOLEAN | NULL | KwFor
      // both
    | KwIf | KwElse | KwWhile | KwFunction | KwReturn | KwThis

  /** The keyword token that starts a VariableStatement. */
  function DeclarationKeyword(d: Dialect): Kind {
    match d
    case Src => KwDec
    case Web => DECLARATION
  }

  /** `{type, value}` in the source: the kind and the exact lexeme. */
  datatype Token = Token(kind: Kind, text: string)

  /** The single failure outcome. `LexError` is the tokenizer's "Unexpected token"
      naming the first character no rule matches (and, here, its offset);
      `SyntaxError` stands for every parser failure. */
  datatype Error = LexError(at: nat, ch: char) | SyntaxError

  /** A quoted string lexeme: same quote at both ends, none inside. */
  predicate IsStringLexeme(s: string) {
    && |s| >= 2
    && (s[0] == '"' || s[0] == '\'')
    && s[|s| - 1] == s[0]
    && s[0] !in s[1..|s| - 1]
  }

  /** The lexemes a rule of either table can produce for each kind. */
  predicate ValidToken(t: Token) {
    var s := t.text;
    match t.kind
    case Semicolon => s == ";"
    case Comma => s == ","
    case OpenBrace => s == "{"
    case CloseBrace => s == "}"
    case OpenParen => s == "("
    case CloseParen => s == ")"
    case OpenBracket => s == "["
    case CloseBracket => s == "]"
    case Dot => s == "."
    case NUMBER => IsDigits(s)
    case STRING => IsStringLexeme(s)
    case IDENTIFIER => IsName(s)
    case ADDITIVE_OPERATOR => s in {"+", "-"}
    case MULTIPLICATIVE_OPERATOR => s in {"*", "/"}
    case RELATIONAL_OPERATOR => s in {"<", ">", "<=", ">="}
    case EQUALITY_OPERATOR => s in {"==", "===", "!=", "!=="}
    case LOGICAL_AND => s == "&&"
    case LOGICAL_OR => s == "||"
    case LOGICAL_NOT => s == "!"
    case SIMPLE_ASSIGN => s == "="
    case COMPLEX_ASSIGN => s in {"+=", "-=", "*=", "/="}
    case KwDec => s in {"let", "var", "const"}
    case DECLARATION => s in {"let", "var", "const"}
    case KwTrue => s == "true"
    case KwFalse => s == "false"
    case BOOLEAN => s in {"true", "false"}
    case KwNull => s == "null"
    case NULL => s == "null"
    case KwClass => s == "class"
    case KwExtends => s == "extends"
    case KwNew => s == "new"
    case KwSuper => s == "super"
    case KwFor => s == "for"
    case KwIf => s == "if"
    case KwElse => s == "else"
    case KwWhile => s == "while"
    case KwFunction => s == "function"
    case KwReturn => s == "return"
    case KwThis => s == "this"
  }

  predicate AllValid(ts: seq<Token>) {
    forall i :: 0 <= i < |ts| ==> ValidToken(ts[i])
  }
}
