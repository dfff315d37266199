/** The token vocabulary of the Book language, shared by the lexer and the parser. */
module Tokens {

  datatype Kind =
    | EOF | Identifier | Number | String
    | And | Break | Do | Else | Elseif | End | False | For | Function | If | In | Local
    | Nil | Not | Or | Return | Then | True | While
    | Plus | Minus | Star | Slash | FloorDiv | Percent | Concat | Length | Tilde
    | Equal | EqualEqual | NotEqual | Less | LessEqual | Greater | GreaterEqual
    | BitAnd | BitOr | ShiftLeft | ShiftRight
    | LeftParen | RightParen | LeftBrace | RightBrace | LeftBracket | RightBracket
    | Comma | Dot | Colon | Semicolon | Ellipsis

  /** A token as the parser sees it: its kind and the source bytes it covers. */
  datatype Token = Token(kind: Kind, text: string)

  /** The spelling of every kind that has only one (keywords, operators, punctuation). */
  function Spelling(k: Kind): string {
    match k
    case EOF => "" case Identifier => "" case Number => "" case String => ""
    case And => "and" case Break => "break" case Do => "do" case Else => "else"
    case Elseif => "elseif" case End => "end" case False => "false" case For => "for"
    case Function => "function" case If => "if" case In => "in" case Local => "local"
    case Nil => "nil" case Not => "not" case Or => "or" case Return => "return"
    case Then => "then" case True => "true" case While => "while"
    case Plus => "+" case Minus => "-" case Star => "*" case Slash => "/"
    case FloorDiv => "//" case Percent => "%" case Concat => ".." case Length => "#"
    case Tilde => "~" case Equal => "=" case EqualEqual => "==" case NotEqual => "~="
    case Less => "<" case LessEqual => "<=" case Greater => ">" case GreaterEqual => ">="
    case BitAnd => "&" case BitOr => "|" case ShiftLeft => "<<" case ShiftRight => ">>"
    case LeftParen => "(" case RightParen => ")" case LeftBrace => "{" case RightBrace => "}"
    case LeftBracket => "[" case RightBracket => "]" case Comma => "," case Dot => "."
    case Colon => ":" case Semicolon => ";" case Ellipsis => "..."
  }

  /** A token of a kind with a fixed spelling. */
  function Fixed(k: Kind): Token { Token(k, Spelling(k)) }

  /** Does the token list begin with a token of kind k? */
  predicate Starts(ts: seq<Token>, k: Kind) { ts != [] && ts[0].kind == k }
}
