/** Token kinds, the keyword table and identifier lookup
    (sonar-lang/token/token.go). */
module Token {

  datatype TokenType =
    | ILLEGAL | EOF
    | IDENT | INT | FLOAT | STRING
    | PLUS | MINUS | BANG | ASTERISK | SLASH
    | ASSIGN | PLUS_ASSIGN | MINUS_ASSIGN | ASTERISK_ASSIGN | SLASH_ASSIGN
    | LT | GT | LTE | GTE
    | EQ | NOT_EQ | POST_INCR | POST_DECR
    | AND | OR
    | COMMA | SEMICOLON | COLON | FULLSTOP
    | LPAREN | RPAREN | LBRACE | RBRACE | LBRACKET | RBRACKET
    | FUNCTION | LET | TRUE | FALSE | IF | ELSE | RETURN | WHILE | FOR | IN | BREAK | CONTINUE

  /** The string value Go gives each token type constant. */
  function Name(t: TokenType): string {
    match t
    case ILLEGAL => "ILLEGAL"        case EOF => "EOF"
    case IDENT => "IDENTIFIER"       case INT => "INT"
    case FLOAT => "FLOAT"            case STRING => "STRING"
    case PLUS => "+"                 case MINUS => "-"
    case BANG => "!"                 case ASTERISK => "*"
    case SLASH => "/"                case ASSIGN => "="
    case PLUS_ASSIGN => "+="         case MINUS_ASSIGN => "-="
    case ASTERISK_ASSIGN => "*="     case SLASH_ASSIGN => "/="
    case LT => "<"                   case GT => ">"
    case LTE => "<="                 case GTE => ">="
    case EQ => "=="                  case NOT_EQ => "!="
    case POST_INCR => "++"           case POST_DECR => "--"
    case AND => "and"                case OR => "or"
    case COMMA => ","                case SEMICOLON => ";"
    case COLON => ":"                case FULLSTOP => "."
    case LPAREN => "("               case RPAREN => ")"
    case LBRACE => "{"               case RBRACE => "}"
    case LBRACKET => "["             case RBRACKET => "]"
    case FUNCTION => "FUNCTION"      case LET => "LET"
    case TRUE => "TRUE"              case FALSE => "FALSE"
    case IF => "IF"                  case ELSE => "ELSE"
    case RETURN => "RETURN"          case WHILE => "WHILE"
    case FOR => "FOR"                case IN => "IN"
    case BREAK => "BREAK"            case CONTINUE => "CONTINUE"
  }

  datatype Token = Token(typ: TokenType, literal: string)

  /** The reserved words and the token type each one stands for. */
  const Keywords: map<string, TokenType> := map[
    "func" := FUNCTION, "let" := LET, "true" := TRUE, "false" := FALSE,
    "if" := IF, "else" := ELSE, "return" := RETURN, "and" := AND,
    "or" := OR, "while" := WHILE, "for" := FOR, "in" := IN,
    "break" := BREAK, "continue" := CONTINUE
  ]

  /** A keyword's own type, IDENTIFIER for every other word. */
  function LookupIdent(ident: string): (t: TokenType)
    ensures ident in Keywords ==> t == Keywords[ident]
    ensures ident !in Keywords ==> t == IDENT
  {
    if ident in Keywords then Keywords[ident] else IDENT
  }

  /** Every keyword has a type of its own (none is read as an identifier),
      and no two keywords share a type. */
  lemma KeywordsDistinct(a: string, b: string)
    requires a in Keywords && b in Keywords && a != b
    ensures LookupIdent(a) != LookupIdent(b) && LookupIdent(a) != IDENT
  {
  }

  /** Exactly the fourteen reserved words are read as something other
      than an identifier. */
  lemma ReservedWords(w: string)
    ensures LookupIdent(w) != IDENT <==>
      w in {"func", "let", "true", "false", "if", "else", "return", "and", "or",
            "while", "for", "in", "break", "continue"}
  {
  }

  /** The logical operators are spelled as words and lexed as keywords. */
  lemma LogicalWordsAreOperators()
    ensures LookupIdent("and") == AND && Name(AND) == "and"
    ensures LookupIdent("or") == OR && Name(OR) == "or"
  {
  }
}
