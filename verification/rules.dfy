/** The two ordered rule tables. A rule whose kind is `None` (whitespace and
    comments) is a skip rule: its match produces no token. */
module Rules {
  import opened Wrappers
  import opened Tokens
  import opened Patterns

  datatype Rule = Rule(pattern: Pattern, kind: Option<Kind>)

  function Punct(lexeme: string, k: Kind): Rule {
    Rule(Words([lexeme], false), Some(k))
  }

  /** The `Spec` table of src/tokenizer.js, in order. Rules 12-18 also carry a
      leading `\b`; at offset 0 of the rest of the input it only asks that the
      first character be a word character, which every alternative's first
      letter already is, so it is left implicit. */
  const SrcSpec: seq<Rule> := [
    Rule(Spaces, None),                                        //  0  ^\s+
    Rule(LineComment, None),                                   //  1  ^\/\/.*
    Rule(BlockComment, None),                                  //  2  ^\/\*[\s\S]*?\*\/
    Punct(";", Semicolon),                                     //  3
    Punct("{", OpenBrace),                                     //  4
    Punct("}", CloseBrace),                                    //  5
    Punct("(", OpenParen),                                     //  6
    Punct(")", CloseParen),                                    //  7
    Punct("[", OpenBracket),                                   //  8
    Punct("]", CloseBracket),                                  //  9
    Punct(",", Comma),                                         // 10
    Punct(".", Dot),                                           // 11
    Rule(Words(["let", "var", "const"], true), Some(KwDec)),  // 12  ^\b(let|var|const)\b
    Rule(Words(["if"], true), Some(KwIf)),                     // 13
    Rule(Words(["while"], true), Some(KwWhile)),               // 14
    Rule(Words(["else"], true), Some(KwElse)),                 // 15
    Rule(Words(["true"], true), Some(KwTrue)),                 // 16
    Rule(Words(["false"], true), Some(KwFalse)),               // 17
    Rule(Words(["null"], true), Some(KwNull)),                 // 18
    Rule(Digits, Some(NUMBER)),                                // 19  ^\d+
    Rule(Quoted('"'), Some(STRING)),                           // 20  ^"[^"]*?"
    Rule(Quoted('\''), Some(STRING)),                          // 21  ^'[^']*?'
    Rule(Operator("+-", false, false), Some(ADDITIVE_OPERATOR)),       // 22  ^[+\-]
    Rule(Operator("*/", false, false), Some(MULTIPLICATIVE_OPERATOR)), // 23  ^[*\/]
    Rule(Operator("><", false, true), Some(RELATIONAL_OPERATOR)),      // 24  ^[><]=?
    Punct("&&", LOGICAL_AND),                                  // 25
    Punct("||", LOGICAL_OR),                                   // 26
    Punct("!", LOGICAL_NOT),                                   // 27
    Rule(Operator("=!", true, true), Some(EQUALITY_OPERATOR)), // 28  ^[=!]==?
    Punct("=", SIMPLE_ASSIGN),                                 // 29
    Rule(Operator("*/+-", true, false), Some(COMPLEX_ASSIGN)), // 30  ^[\*\/\+\-]=
    Punct("return", KwReturn),                                 // 31  no \b
    Punct("function", KwFunction),                             // 32
    Punct("class", KwClass),                                   // 33
    Punct("extends", KwExtends),                               // 34
    Punct("new", KwNew),                                       // 35
    Punct("super", KwSuper),                                   // 36
    Punct("this", KwThis),                                     // 37
    Rule(Word, Some(IDENTIFIER))                               // 38  ^\w+
  ]

  /** The table of parser-web/spec.js, in order. */
  const WebSpec: seq<Rule> := [
    Punct(";", Semicolon),                                     //  0
    Punct(",", Comma),                                         //  1
    Punct("{", OpenBrace),                                     //  2
    Punct("}", CloseBrace),                                    //  3
    Punct("(", OpenParen),                                     //  4
    Punct(")", CloseParen),                                    //  5
    Punct(".", Dot),                                           //  6
    Punct("[", OpenBracket),                                   //  7
    Punct("]", CloseBracket),                                  //  8
    Rule(Spaces, None),                                        //  9  ^\s+
    Rule(LineComment, None),                                   // 10  ^\/\/.*
    Rule(BlockComment, None),                                  // 11  ^\/\*[\s\S]*?\*\/
    Rule(Digits, Some(NUMBER)),                                // 12  ^\d+
    Rule(Quoted('\''), Some(STRING)),                          // 13  ^'[^']*'
    Rule(Quoted('"'), Some(STRING)),                           // 14  ^"[^"]*"
    Rule(Words(["true", "false"], true), Some(BOOLEAN)),      // 15  ^(true|false)\b
    Rule(Words(["null"], true), Some(NULL)),                   // 16  ^null\b
    Rule(Words(["let", "var", "const"], false), Some(DECLARATION)), // 17  ^(let|var|const)
    Punct("if", KwIf),                                         // 18  no \b from here on
    Punct("else", KwElse),                                     // 19
    Punct("while", KwWhile),                                   // 20
    Punct("for", KwFor),                                       // 21
    Punct("function", KwFunction),                             // 22
    Punct("return", KwReturn),                                 // 23
    Punct("this", KwThis),                                     // 24
    Rule(Operator("><", false, true), Some(RELATIONAL_OPERATOR)),      // 25  ^[><]=?
    Rule(Operator("=!", true, true), Some(EQUALITY_OPERATOR)), // 26  ^[=!]==?
    Punct("&&", LOGICAL_AND),                                  // 27
    Punct("||", LOGICAL_OR),                                   // 28
    Punct("=", SIMPLE_ASSIGN),                                 // 29
    Rule(Operator("*/+-", true, false), Some(COMPLEX_ASSIGN)), // 30  ^[\*\/\+\-]=
    Punct("!", LOGICAL_NOT),                                   // 31
    Rule(Operator("+-", false, false), Some(ADDITIVE_OPERATOR)),       // 32  ^[+\-]
    Rule(Operator("*/", false, false), Some(MULTIPLICATIVE_OPERATOR)), // 33  ^[\*\/]
    Rule(Word, Some(IDENTIFIER))                               // 34  ^\w+
  ]

  function Table(d: Dialect): seq<Rule> {
    match d
    case Src => SrcSpec
    case Web => WebSpec
  }
}
